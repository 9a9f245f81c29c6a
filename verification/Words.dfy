/** The two shared state words of `SharedMessage`, in decoded form, and the changes made to them.

    `Packed` ties these records to the 64-bit words that hold them. */
module Words {

  datatype Option<+T> = None | Some(value: T)

  /** `u16` fields take values below this bound and wrap around it. */
  const U16_MOD: nat := 0x1_0000

  type U16 = n: nat | n < U16_MOD

  /** The sequence number occupies the low 62 bits of its word. */
  const SEQUENCE_MOD: nat := 0x4000_0000_0000_0000

  datatype SequenceState = SequenceState(sequence: nat, stopped: bool, writing: bool)

  datatype ReadersState = ReadersState(target: nat, consumers: nat, active: nat, consumed: nat)

  /** How many releases a writer waits for: the policy's target, but never more than there are consumers. */
  function TargetConsumed(r: ReadersState): (n: nat)
    ensures n <= r.target && n <= r.consumers
    ensures n == r.target || n == r.consumers
  {
    if r.target <= r.consumers then r.target else r.consumers
  }

  /** The closures handed to `update_reader_state`. */
  datatype Mutator =
    | Register
    | Unregister
    | Release
    | Reset
    | SetTarget(count: U16)
    | AddReader
    | RemoveReader

  /** One application of a closure; `None` is a panic inside it, which leaves the word alone. */
  function Mutate(m: Mutator, r: ReadersState): Option<ReadersState> {
    match m
    case Register => Some(r.(active := (r.active + 1) % U16_MOD))
    case Unregister => Some(r.(active := (r.active + U16_MOD - 1) % U16_MOD))
    case Release =>
      Some(r.(active := (r.active + U16_MOD - 1) % U16_MOD, consumed := (r.consumed + 1) % U16_MOD))
    case Reset => Some(r.(consumed := 0))
    case SetTarget(count) => Some(r.(target := count))
    case AddReader => if r.consumers == U16_MOD - 1 then None else Some(r.(consumers := r.consumers + 1))
    case RemoveReader => if r.consumers == 0 then None else Some(r.(consumers := r.consumers - 1))
  }

  /** The sequence number after `sequence`: 62 bits, skipping 0, which means "nothing published yet". */
  function NextSequence(sequence: nat): nat {
    var next := (sequence + 1) % SEQUENCE_MOD;
    if next == 0 then 1 else next
  }

  /** What a publish stores: the next number, the flag lowered, `stopped` kept. */
  function Published(prev: SequenceState): SequenceState {
    SequenceState(NextSequence(prev.sequence), prev.stopped, false)
  }
}
