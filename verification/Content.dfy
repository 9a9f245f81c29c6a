/** Snapshot consistency: what a read guard delivers is what was published. */
module Content {
  import opened Words
  import opened Machine
  import opened Exclusion
  import opened History

  /** The payload of the `n`-th message; before any, the empty one. */
  function Payload(pub: seq<seq<Byte>>, n: nat): seq<Byte>
    requires n <= |pub|
  {
    if n == 0 then [] else pub[n - 1]
  }

  /** The granted section knows what it has put where. */
  predicate GrantContent(mem: Memory, th: Thread) {
    var wr := th.wr;
    && (th.pc == W(Granted) && wr.job.Slice? && |wr.job.data| <= |mem.buffer| ==>
          wr.at <= |wr.job.data| && mem.buffer[..wr.at] == wr.job.data[..wr.at])
    && (th.pc == W(Size) ==>
          wr.len <= |mem.buffer| && (wr.job.Slice? ==> mem.buffer[..wr.len] == wr.job.data))
    && ((th.pc.U? && th.pc.m.Reset?) || InWindow(th) ==>
          mem.size == wr.len && (wr.job.Slice? ==> Data(mem) == wr.job.data))
  }

  /** A guard copies the bytes that are there now. */
  predicate GuardContent(mem: Memory, th: Thread) {
    && (HasGuard(th) && mem.dirty ==> mem.tainted)
    && (th.pc == R(RGuard) && th.rd.view.Some? ==>
          && th.rd.view.value == mem.size
          && |th.rd.acc| <= |Data(mem)| && th.rd.acc == Data(mem)[..|th.rd.acc|])
  }

  predicate MemoryInv(sh: Shared) {
    && sh.mem.size <= |sh.mem.buffer|
    && (!sh.mem.dirty ==> Data(sh.mem) == Payload(sh.pub, |sh.pub|))
    && (sh.mem.dirty && !sh.seqw.writing ==> sh.mem.tainted)
    && (sh.mem.tainted ==> sh.mem.dirty && sh.mem.abandoned)
  }

  /** The bytes filed under `index` are the payload of that message. */
  ghost predicate ReceiptsOk(pub: seq<seq<Byte>>, got: seq<Receipt>) {
    forall k :: 0 <= k < |got| ==> got[k].index <= |pub| && got[k].bytes == Payload(pub, got[k].index)
  }

  ghost predicate ContentInv(s: State) {
    && MemoryInv(s.sh)
    && (s.sh.mem.dirty ==> s.sh.mem.abandoned || exists w :: 0 <= w < |s.threads| && HasGrant(s.threads[w]))
    && (forall t :: 0 <= t < |s.threads| ==>
          GrantContent(s.sh.mem, s.threads[t]) && GuardContent(s.sh.mem, s.threads[t]))
    && (!s.sh.mem.abandoned ==> forall t :: 0 <= t < |s.threads| ==> ReceiptsOk(s.sh.pub, s.threads[t].hd.got))
  }

  ghost predicate SameBytes(mem: Memory, mem': Memory) {
    mem'.buffer == mem.buffer && mem'.size == mem.size && mem'.dirty == mem.dirty
  }

  ghost predicate ContentEffect(sh: Shared, th: Thread, sh': Shared, th': Thread) {
    && MemoryInv(sh')
    && GrantContent(sh'.mem, th') && GuardContent(sh'.mem, th')
    && (HasGrant(th) || SameBytes(sh.mem, sh'.mem))
    && (sh.mem.tainted && !sh'.mem.tainted ==> HasGrant(th))
    && (sh.mem.abandoned ==> sh'.mem.abandoned)
    && (sh'.mem.dirty ==> sh.mem.dirty || HasGrant(th))
    && (sh'.mem.dirty && HasGrant(th) && !HasGrant(th') ==> sh'.mem.abandoned)
    && (|| th'.hd.got == th.hd.got
        || (th.pc == R(RGuard) && sh' == sh && th'.hd.got == th.hd.got + [Receipt(th.hd.lastIdx, Data(sh.mem))]))
  }

  lemma SliceContents(sh: Shared, th: Thread, sh': Shared, th': Thread)
    requires th.pc == W(Granted) && th.wr.job.Slice? && GrantedMoved(sh, th, sh', th')
    requires MemoryInv(sh) && sh.seqw.writing && GrantContent(sh.mem, th)
    ensures ContentEffect(sh, th, sh', th')
  {
    var data := th.wr.job.data;
    if th.wr.at < |data| <= |sh.mem.buffer| {
      assert sh'.mem.buffer[..th.wr.at + 1] == sh.mem.buffer[..th.wr.at] + [data[th.wr.at]];
      assert data[..th.wr.at + 1] == data[..th.wr.at] + [data[th.wr.at]];
    }
  }

  lemma AnyContents(sh: Shared, th: Thread, sh': Shared, th': Thread)
    requires th.pc == W(Granted) && th.wr.job.Guard? && GrantedMoved(sh, th, sh', th')
    requires MemoryInv(sh) && sh.seqw.writing
    ensures ContentEffect(sh, th, sh', th')
  {
  }

  lemma DrainContents(sh: Shared, th: Thread, sh': Shared, th': Thread)
    requires th.pc.W? && DrainMoved(sh, th, sh', th') && MemoryInv(sh)
    requires Flagged(th) ==> sh.seqw.writing
    requires sh.mem.dirty ==> sh.mem.abandoned
    ensures ContentEffect(sh, th, sh', th')
  {
  }

  lemma PublishContents(sh: Shared, th: Thread, sh': Shared, th': Thread)
    requires th.pc.W? && th.pc != W(Granted) && PublishMoved(sh, th, sh', th') && MemoryInv(sh)
    requires Flagged(th) ==> sh.seqw.writing
    requires GrantContent(sh.mem, th)
    ensures ContentEffect(sh, th, sh', th')
  {
  }

  lemma AsideContents(sh: Shared, th: Thread, sh': Shared, th': Thread)
    requires Aside(sh, th, sh', th') && MemoryInv(sh)
    ensures ContentEffect(sh, th, sh', th')
  {
  }

  lemma UpdateContents(sh: Shared, t: nat, th: Thread, sh': Shared, th': Thread)
    requires th.pc.U? && Moved(sh, t, th, sh', th') && MemoryInv(sh)
    requires GrantContent(sh.mem, th) && GuardContent(sh.mem, th)
    ensures ContentEffect(sh, th, sh', th')
  {
  }

  lemma ReadContents(sh: Shared, t: nat, th: Thread, sh': Shared, th': Thread)
    requires th.pc.R? && Moved(sh, t, th, sh', th') && MemoryInv(sh)
    requires GrantContent(sh.mem, th) && GuardContent(sh.mem, th)
    ensures ContentEffect(sh, th, sh', th')
  {
    assert Data(sh.mem)[..|Data(sh.mem)|] == Data(sh.mem);
  }

  lemma ContentMoved(s: State, t: nat, s': State)
    requires Exclusion.Inv(s) && ContentInv(s) && Step(s, t, s')
    ensures ContentEffect(s.sh, s.threads[t], s'.sh, s'.threads[t])
  {
    var sh, th, sh', th' := s.sh, s.threads[t], s'.sh, s'.threads[t];
    assert LockLocal(sh, t, th) && GrantContent(sh.mem, th) && GuardContent(sh.mem, th);
    if th.pc.U? {
      UpdateContents(sh, t, th, sh', th');
    } else if th.pc.R? {
      ReadContents(sh, t, th, sh', th');
    } else if !th.pc.W? {
      SignalAside(sh, t, th, sh', th');
      AsideContents(sh, th, sh', th');
    } else if EnterMoved(sh, t, th, sh', th') {
      EnterAside(sh, t, th, sh', th');
      AsideContents(sh, th, sh', th');
    } else {
      if w :| 0 <= w < |s.threads| && HasGrant(s.threads[w]) {
        LockUnique(s, t, w);
      }
      if th.pc == W(Granted) && th.wr.job.Slice? {
        SliceContents(sh, th, sh', th');
      } else if th.pc == W(Granted) {
        AnyContents(sh, th, sh', th');
      } else if DrainMoved(sh, th, sh', th') {
        DrainContents(sh, th, sh', th');
      } else {
        PublishContents(sh, th, sh', th');
      }
    }
  }

  lemma ContentOthers(s: State, t: nat, s': State, u: nat)
    requires Exclusion.Inv(s) && ContentInv(s) && t < |s.threads| == |s'.threads| && u < |s.threads| && u != t
    requires ContentEffect(s.sh, s.threads[t], s'.sh, s'.threads[t])
    ensures GrantContent(s'.sh.mem, s.threads[u]) && GuardContent(s'.sh.mem, s.threads[u])
  {
    var th, ot := s.threads[t], s.threads[u];
    assert GrantContent(s.sh.mem, ot) && GuardContent(s.sh.mem, ot);
    assert !(HasGuard(ot) && HasGrant(th));
    if HasGrant(th) && HasGrant(ot) {
      LockUnique(s, t, u);
    }
  }

  lemma ReceiptsGrow(pub: seq<seq<Byte>>, more: seq<seq<Byte>>, got: seq<Receipt>)
    requires ReceiptsOk(pub, got) && pub <= more
    ensures ReceiptsOk(more, got)
  {
  }

  lemma ContentStep(s: State, t: nat, s': State)
    requires Exclusion.Inv(s) && HistoryInv(s) && ContentInv(s) && Step(s, t, s')
    ensures ContentInv(s')
  {
    var th, th' := s.threads[t], s'.threads[t];
    ContentMoved(s, t, s');
    HistoryStep(s, t, s');
    forall u | 0 <= u < |s'.threads|
      ensures GrantContent(s'.sh.mem, s'.threads[u]) && GuardContent(s'.sh.mem, s'.threads[u])
    {
      if u != t {
        ContentOthers(s, t, s', u);
      }
    }
    if s'.sh.mem.dirty && !s'.sh.mem.abandoned {
      GrantWitness(s, t, s');
    }
    if !s'.sh.mem.abandoned {
      ReceiptsKept(s, t, s');
    }
  }

  lemma GrantWitness(s: State, t: nat, s': State)
    requires ContentInv(s) && t < |s.threads| == |s'.threads|
    requires s'.threads == s.threads[t := s'.threads[t]]
    requires ContentEffect(s.sh, s.threads[t], s'.sh, s'.threads[t])
    requires s'.sh.mem.dirty && !s'.sh.mem.abandoned
    ensures exists w :: 0 <= w < |s'.threads| && HasGrant(s'.threads[w])
  {
    if HasGrant(s.threads[t]) {
      assert HasGrant(s'.threads[t]);
    } else {
      var w :| 0 <= w < |s.threads| && HasGrant(s.threads[w]);
      assert HasGrant(s'.threads[w]);
    }
  }

  lemma ReceiptsKept(s: State, t: nat, s': State)
    requires HistoryInv(s) && ContentInv(s) && t < |s.threads| == |s'.threads|
    requires s'.threads == s.threads[t := s'.threads[t]]
    requires ContentEffect(s.sh, s.threads[t], s'.sh, s'.threads[t])
    requires HistoryEffect(s.sh, s.threads[t], s'.sh, s'.threads[t])
    requires !s'.sh.mem.abandoned
    ensures forall u :: 0 <= u < |s'.threads| ==> ReceiptsOk(s'.sh.pub, s'.threads[u].hd.got)
  {
    var th, th' := s.threads[t], s'.threads[t];
    assert HistoryLocal(s.sh, th) && GuardContent(s.sh.mem, th);
    forall u | 0 <= u < |s'.threads| ensures ReceiptsOk(s'.sh.pub, s'.threads[u].hd.got) {
      ReceiptsGrow(s.sh.pub, s'.sh.pub, s.threads[u].hd.got);
    }
  }

  lemma ContentInit(s: State)
    requires Init(s)
    ensures ContentInv(s)
  {
  }
}
