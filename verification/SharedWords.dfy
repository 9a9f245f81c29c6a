/** The compare-and-swap loops of `SharedMessage`, run against interference.

    Between a load and the swap that follows it other threads may store anything: `env` says what they do
    before each attempt, and which attempts fail spuriously. */
module SharedWords {
  import opened Words
  import opened Bits
  import opened Packed

  /** What happens before one swap attempt: what the others leave in the word, if they touch it, and
      whether `compare_exchange_weak` fails without a reason. */
  datatype Turn = Turn(store: Option<Word>, spurious: bool)

  /** What the others leave in a word that held `w`. */
  function Left(w: Word, turn: Turn): Word {
    if turn.store.Some? then turn.store.value else w
  }

  /** The word `w` after the first `k` turns of the others. */
  function Disturbed(w: Word, env: seq<Turn>, k: nat): Word
    requires k <= |env|
  {
    if k == 0 then w else Left(Disturbed(w, env, k - 1), env[k - 1])
  }

  /** One turn of the loop of `update_reader_state` up to its swap. */
  method Attempt(m: Mutator, seen: Word) returns (policy: Option<ReadersState>, value: Word)
    ensures policy == Mutate(m, UnpackReaders(seen))
    ensures policy.Some? ==> UnpackReaders(value) == policy.value && value == PackReaders(policy.value)
    ensures policy.None? ==> value == seen
  {
    policy, value := Mutate(m, UnpackReaders(seen)), seen;
    if policy.Some? {
      MutatedWord(m, seen, policy);
      value := PackReaders(policy.value);
    }
  }

  class SharedMessageWords {
    var sequenceAndFlags: Word
    var readersState: Word

    constructor ()
      ensures sequenceAndFlags == 0 && readersState == 0
    {
      sequenceAndFlags, readersState := 0, 0;
    }

    /** `update_reader_state`: the closure is applied exactly once, to the word as the others had left it
        when the loop ended, and every other field keeps what they last wrote; a panic changes nothing. */
    method UpdateReaderState(m: Mutator, env: seq<Turn>) returns (policy: Option<ReadersState>, turns: nat)
      modifies this`readersState
      ensures turns <= |env|
      ensures var before := UnpackReaders(Disturbed(old(readersState), env, turns));
              && policy == Mutate(m, before)
              && UnpackReaders(readersState) == if policy.Some? then policy.value else before
    {
      var seen := readersState;
      turns := 0;
      while true
        invariant turns <= |env| && seen == readersState == Disturbed(old(readersState), env, turns)
        decreases |env| - turns
      {
        var value;
        policy, value := Attempt(m, seen);
        if value == seen {
          return;
        }
        var spurious := false;
        if turns < |env| {
          readersState := Left(readersState, env[turns]);
          spurious := env[turns].spurious;
          turns := turns + 1;
        }
        if readersState == seen && !spurious {
          readersState := value;
          return;
        }
        seen := readersState;
      }
    }

    /** The swap loop of `publish_write`: one increment of the sequence, the writing flag lowered, and
        `stopped` as the others had left it, even if it was set after the first load. */
    method PublishSequence(env: seq<Turn>) returns (sequence: nat, turns: nat)
      modifies this`sequenceAndFlags
      ensures turns <= |env|
      ensures var before := UnpackSequence(Disturbed(old(sequenceAndFlags), env, turns));
              && UnpackSequence(sequenceAndFlags) == Published(before)
              && sequence == UnpackSequence(sequenceAndFlags).sequence
    {
      var packed := sequenceAndFlags;
      turns := 0;
      while true
        invariant turns <= |env| && packed == sequenceAndFlags == Disturbed(old(sequenceAndFlags), env, turns)
        decreases |env| - turns
      {
        PublishedWord(packed);
        var next := Published(UnpackSequence(packed));
        var value := PackSequence(next);
        sequence := next.sequence;
        var spurious := false;
        if turns < |env| {
          sequenceAndFlags := Left(sequenceAndFlags, env[turns]);
          spurious := env[turns].spurious;
          turns := turns + 1;
        }
        if sequenceAndFlags == packed && !spurious {
          sequenceAndFlags := value;
          return;
        }
        packed := sequenceAndFlags;
      }
    }

    /** The fetch-or of `stop`. */
    method Stop()
      modifies this`sequenceAndFlags
      ensures UnpackSequence(sequenceAndFlags) == UnpackSequence(old(sequenceAndFlags)).(stopped := true)
    {
      FetchOps(sequenceAndFlags);
      sequenceAndFlags := BitOr(sequenceAndFlags, STOPPED_MASK);
    }

    /** The fetch-or of `start_write`. */
    method RaiseWriting()
      modifies this`sequenceAndFlags
      ensures UnpackSequence(sequenceAndFlags) == UnpackSequence(old(sequenceAndFlags)).(writing := true)
    {
      FetchOps(sequenceAndFlags);
      sequenceAndFlags := BitOr(sequenceAndFlags, WRITING_IN_PROGRESS_MASK);
    }

    /** The fetch-and of an aborted `start_write`. */
    method LowerWriting()
      modifies this`sequenceAndFlags
      ensures UnpackSequence(sequenceAndFlags) == UnpackSequence(old(sequenceAndFlags)).(writing := false)
    {
      FetchOps(sequenceAndFlags);
      sequenceAndFlags := BitAnd(sequenceAndFlags, U64_MOD - 1 - WRITING_IN_PROGRESS_MASK);
    }
  }
}
