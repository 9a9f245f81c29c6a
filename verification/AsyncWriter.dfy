/** A `WriteAsync` handle: payloads go through a queue to a background thread that publishes them. Stop
    closes the queue; a later `write` opens a new one with a new thread. */
module AsyncWriter {
  import opened Words
  import Machine

  type Payload = seq<Machine.Byte>

  /** A background thread: blocked in `recv`, holding a payload it received, past the stop check of
      `write_slice` with it, or gone. */
  datatype Worker = Waiting | Holding(payload: Payload) | Writing(payload: Payload) | Exited

  /** The payload a thread has taken off its queue and not finished with. */
  function InHand(w: Worker): seq<Payload> {
    if w.Holding? || w.Writing? then [w.payload] else []
  }

  /** A queue and its thread; `open` while the sender exists, `accepted` all payloads it ever took. */
  datatype Channel = Channel(queue: seq<Payload>, open: bool, worker: Worker, accepted: seq<Payload>)

  /** What the thread of a queue has before it, in order. */
  function Line(ch: Channel): seq<Payload> { InHand(ch.worker) + ch.queue }

  predicate AllFit(payloads: seq<Payload>, capacity: nat) {
    forall k :: 0 <= k < |payloads| ==> |payloads[k]| <= capacity
  }

  /** How `write` ends. */
  datatype Written = Accepted | TooLarge | QueueGone

  class PythonSharedMessage {
    const capacity: nat
    var stopped: bool
    /** The index of the current queue, while the handle has its sender. */
    var sender: Option<nat>
    var channels: seq<Channel>
    /** The payloads this handle took and the ones it published, oldest first. */
    var accepted: seq<Payload>
    var published: seq<Payload>

    /** Only the first queue ever publishes, in its own order; every later one was opened after stop. */
    ghost predicate Valid()
      reads this
    {
      && (sender.Some? ==> |channels| > 0 && sender.value == |channels| - 1)
      && (sender == None && channels != [] ==> stopped)
      && (forall c :: 0 <= c < |channels| ==> (channels[c].open <==> sender == Some(c)))
      && (|channels| > 1 ==> stopped)
      && (channels == [] ==> published == [] && accepted == [])
      && AllFit(accepted, capacity)
      && (forall c :: 1 <= c < |channels| ==> !channels[c].worker.Writing?)
      && (channels != [] ==>
            var first := channels[0];
            && first.accepted <= accepted
            && (|channels| == 1 ==> first.accepted == accepted)
            && (if first.worker.Exited? then stopped && published <= first.accepted
                else published + Line(first) == first.accepted)
            && (!first.worker.Exited? && !first.open ==> stopped))
    }

    /** Everything accepted so far was published, is in the thread's hand, or is queued, in that order. */
    ghost predicate NothingMissing()
      reads this
    {
      accepted == published + if channels == [] then [] else Line(channels[0])
    }

    lemma InOrder()
      requires Valid()
      ensures published <= accepted && AllFit(accepted, capacity)
      ensures !stopped ==> NothingMissing()
    {
    }

    constructor (capacity: nat)
      ensures Valid() && this.capacity == capacity && !stopped && accepted == published == [] && channels == []
    {
      this.capacity := capacity;
      stopped, sender, channels, accepted, published := false, None, [], [], [];
    }

    /** `get_or_insert_with`: the current queue, or a new one with a new thread. */
    method Open()
      requires Valid()
      modifies this`sender, this`channels
      ensures Valid() && sender.Some? && old(channels) <= channels
      ensures old(sender).Some? ==> sender == old(sender) && channels == old(channels)
      ensures old(sender).None? ==>
                |channels| == |old(channels)| + 1 && channels[sender.value] == Channel([], true, Waiting, [])
    {
      if sender.None? {
        sender := Some(|channels|);
        channels := channels + [Channel([], true, Waiting, [])];
      }
    }

    /** `send` to a queue whose thread is there. */
    method Send(data: Payload)
      requires Valid() && sender.Some? && !channels[sender.value].worker.Exited? && |data| <= capacity
      modifies this`channels, this`accepted
      ensures Valid() && accepted == old(accepted) + [data] && |channels| == |old(channels)|
      ensures Line(channels[sender.value]) == old(Line(channels[sender.value])) + [data]
    {
      var ch := channels[sender.value];
      var next := ch.(queue := ch.queue + [data], accepted := ch.accepted + [data]);
      assert Line(next) == Line(ch) + [data];
      assert published + Line(next) == (published + Line(ch)) + [data];
      channels := channels[sender.value := next];
      accepted := accepted + [data];
    }

    /** `write`: appends to the line of the current queue, opening one if there is none. It refuses a payload
        beyond the capacity, and any payload when the thread of the current queue is gone. */
    method Write(data: Payload) returns (r: Written)
      requires Valid()
      modifies this
      ensures Valid() && published == old(published) && stopped == old(stopped)
      ensures r.TooLarge? <==> |data| > capacity
      ensures r.QueueGone? <==>
                |data| <= capacity && old(sender).Some? && old(channels)[old(sender).value].worker.Exited?
      ensures r.QueueGone? ==> stopped
      ensures !r.Accepted? ==> accepted == old(accepted) && channels == old(channels) && sender == old(sender)
      ensures r.Accepted? ==>
                && accepted == old(accepted) + [data]
                && sender == (if old(sender).Some? then old(sender) else Some(|old(channels)|))
                && Line(channels[sender.value]) ==
                   (if old(sender).Some? then old(Line(channels[sender.value])) else []) + [data]
    {
      if |data| > capacity {
        return TooLarge;
      }
      Open();
      var ch := channels[sender.value];
      if ch.worker.Exited? {
        return QueueGone;
      }
      Send(data);
      return Accepted;
    }

    /** The shared stop, by this handle or any other. */
    method Stop()
      requires Valid()
      modifies this`stopped
      ensures Valid() && stopped
    {
      stopped := true;
    }

    /** The second half of `stop`: the sender is dropped and with it the one queue that was open; whatever is
        in line stays there. */
    method CloseQueue()
      requires Valid() && stopped
      modifies this`sender, this`channels
      ensures Valid() && sender == None && |channels| == |old(channels)|
      ensures forall c :: 0 <= c < |channels| ==> !channels[c].open
      ensures forall c :: 0 <= c < |channels| ==>
                Line(channels[c]) == Line(old(channels)[c]) && channels[c].worker == old(channels)[c].worker
    {
      if sender.Some? {
        channels := channels[sender.value := channels[sender.value].(open := false)];
        sender := None;
      }
    }

    /** `recv` in background thread `c`: the oldest payload in line moves into its hand. With nothing in line
        it goes on waiting, or ends if the sender is gone. */
    method Receive(c: nat)
      requires Valid() && c < |channels| && channels[c].worker == Waiting
      modifies this`channels
      ensures Valid() && |channels| == |old(channels)| && channels == old(channels)[c := channels[c]]
      ensures Line(channels[c]) == old(Line(channels[c]))
      ensures old(Line(channels[c])) != [] ==> channels[c].worker == Holding(old(Line(channels[c]))[0])
      ensures channels[c].worker.Exited? <==> old(Line(channels[c])) == [] && !old(channels)[c].open
    {
      var ch := channels[c];
      if ch.queue != [] {
        var next := ch.(worker := Holding(ch.queue[0]), queue := ch.queue[1..]);
        assert Line(next) == Line(ch);
        channels := channels[c := next];
      } else if !ch.open {
        channels := channels[c := ch.(worker := Exited)];
      }
    }

    /** The stop check of `write_slice` in background thread `c`: the payload stays first in line, unless stop
        is set, in which case it is lost and the thread ends. */
    method BeginWrite(c: nat)
      requires Valid() && c < |channels| && channels[c].worker.Holding?
      modifies this`channels
      ensures Valid() && |channels| == |old(channels)| && channels == old(channels)[c := channels[c]]
      ensures if stopped then channels[c].worker == Exited && Line(channels[c]) == old(Line(channels[c]))[1..]
              else channels[c].worker.Writing? && Line(channels[c]) == old(Line(channels[c]))
    {
      var ch := channels[c];
      channels := channels[c := ch.(worker := if stopped then Exited else Writing(ch.worker.payload))];
    }

    /** The end of `write_slice` in background thread `c`: the payload moves from the front of the line to the
        end of the published ones; after stop it may instead be lost, and then the thread ends. */
    method EndWrite(c: nat, ok: bool)
      requires Valid() && c < |channels| && channels[c].worker.Writing? && (ok || stopped)
      modifies this`channels, this`published
      ensures Valid() && |channels| == |old(channels)| && channels == old(channels)[c := channels[c]]
      ensures ok ==>
                && published == old(published) + [old(channels)[c].worker.payload] && channels[c].worker.Waiting?
                && published + Line(channels[c]) == old(published) + old(Line(channels[c]))
      ensures !ok ==> published == old(published) && channels[c].worker.Exited?
    {
      var ch := channels[c];
      if ok {
        published := published + [ch.worker.payload];
        channels := channels[c := ch.(worker := Waiting)];
      } else {
        channels := channels[c := ch.(worker := Exited)];
      }
    }
  }

  /** Once stop is set and the sender dropped, a background thread that is left to run is gone after its current
      write and at most two more actions, having published nothing but that write. */
  method Finish(h: PythonSharedMessage, c: nat, ok: bool)
    requires h.Valid() && h.stopped && h.sender == None && c < |h.channels|
    modifies h`channels, h`published
    ensures h.Valid() && |h.channels| == |old(h.channels)| && h.channels[c].worker.Exited?
    ensures h.published ==
            old(h.published)
            + if old(h.channels[c].worker.Writing?) && ok then [old(h.channels[c].worker.payload)] else []
  {
    if h.channels[c].worker.Writing? {
      h.EndWrite(c, ok);
    }
    if h.channels[c].worker.Waiting? {
      h.Receive(c);
    }
    if h.channels[c].worker.Holding? {
      h.BeginWrite(c);
    }
  }

  /** So `stop` ends the handle's threads. */
  method Shutdown(h: PythonSharedMessage, c: nat, ok: bool)
    requires h.Valid() && c < |h.channels|
    modifies h
    ensures h.Valid() && h.stopped && h.sender == None && |h.channels| == |old(h.channels)|
    ensures h.channels[c].worker.Exited? && h.accepted == old(h.accepted)
    ensures h.published ==
            old(h.published)
            + if old(h.channels[c].worker.Writing?) && ok then [old(h.channels[c].worker.payload)] else []
  {
    h.Stop();
    h.CloseQueue();
    Finish(h, c, ok);
  }

  /** One atomic action of some thread. */
  datatype Action =
    | Write(data: Payload) | Stop | CloseQueue
    | Receive(c: nat) | BeginWrite(c: nat) | EndWrite(c: nat, ok: bool)

  /** The payloads of the `write` calls that fit, in order. */
  function Fitting(actions: seq<Action>, capacity: nat): seq<Payload> {
    if actions == [] then [] else
      var last := actions[|actions| - 1];
      Fitting(actions[..|actions| - 1], capacity)
      + if last.Write? && |last.data| <= capacity then [last.data] else []
  }

  /** Whether a background thread is where the action has it. */
  predicate Possible(h: PythonSharedMessage, a: Action)
    reads h
  {
    match a
    case CloseQueue => h.stopped
    case Receive(c) => c < |h.channels| && h.channels[c].worker == Waiting
    case BeginWrite(c) => c < |h.channels| && h.channels[c].worker.Holding?
    case EndWrite(c, ok) => c < |h.channels| && h.channels[c].worker.Writing? && (ok || h.stopped)
    case _ => true
  }

  /** The action, if it is possible. */
  method Act(h: PythonSharedMessage, a: Action)
    requires h.Valid()
    modifies h
    ensures h.Valid() && (h.stopped <==> old(h.stopped) || a == Action.Stop)
    ensures h.accepted == old(h.accepted)
            || (a.Write? && |a.data| <= h.capacity && h.accepted == old(h.accepted) + [a.data])
    ensures !h.stopped && a.Write? && |a.data| <= h.capacity ==> h.accepted == old(h.accepted) + [a.data]
    ensures |h.published| == |old(h.published)| + if a.EndWrite? && a.ok && old(Possible(h, a)) then 1 else 0
  {
    if !Possible(h, a) {
      return;
    }
    match a {
      case Write(data) => var _ := h.Write(data);
      case Stop => h.Stop();
      case CloseQueue => h.CloseQueue();
      case Receive(c) => h.Receive(c);
      case BeginWrite(c) => h.BeginWrite(c);
      case EndWrite(c, ok) => h.EndWrite(c, ok);
    }
  }

  /** Any actions of any threads in any order, those that are not possible left out. The published payloads
      are a prefix of the accepted ones, also when stop closes the queue and later calls open a new one; until
      stop every `write` that fits is accepted, and nothing accepted is missing. */
  method Interleave(capacity: nat, actions: seq<Action>) returns (h: PythonSharedMessage)
    ensures fresh(h) && h.Valid() && h.published <= h.accepted && h.capacity == capacity
    ensures AllFit(h.accepted, capacity)
    ensures h.stopped <==> Action.Stop in actions
    ensures !h.stopped ==> h.accepted == Fitting(actions, capacity) && h.NothingMissing()
  {
    h := new PythonSharedMessage(capacity);
    for i := 0 to |actions|
      invariant fresh(h) && h.Valid() && h.capacity == capacity
      invariant h.stopped <==> Action.Stop in actions[..i]
      invariant !h.stopped ==> h.accepted == Fitting(actions[..i], capacity)
    {
      assert actions[..i + 1][..i] == actions[..i];
      Act(h, actions[i]);
    }
    assert actions[..|actions|] == actions;
    h.InOrder();
  }
}
