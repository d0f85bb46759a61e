/**
 * The counter alkane: one opcode-dispatched entry point over a single
 * persisted storage slot, `/counter`, and an ownership capability issued by
 * the first successful initialization.
 *
 * `Step` states what one invocation does to a snapshot of the persisted
 * state; the class `Counter` holds that state in fields and its `Execute`
 * method changes them in place, as the contract's `execute` does.
 */
module CounterContract {
  import opened LittleEndian

  /** Rust's `u128`, the type of the call inputs and of identity parts. */
  type U128 = n: nat | n < 0x1_0000_0000_0000_0000_0000_0000_0000_0000

  datatype Option<+T> = None | Some(value: T)

  /** An alkane's identity, `AlkaneId { block, tx }`. */
  datatype Identity = AlkaneId(block: U128, tx: U128)

  /** The part of the call context the counter reads: who calls, and the inputs. */
  datatype Context = Context(caller: Identity, inputs: seq<U128>)

  /**
   * The answers of the external authorization collaborator, whose code this
   * model does not see: whether issuing the auth token succeeds on this call,
   * and what the ownership guard answers while no capability exists yet.
   */
  datatype Authority = Authority(deploySucceeds: bool, guardBeforeDeploy: bool)

  /** Why an invocation fails. A failed invocation persists nothing. */
  datatype Error =
    | Unauthorized        // the ownership guard rejected the caller
    | MalformedState      // fewer than eight bytes stored: slicing `[..8]` panics
    | ArithmeticOverflow  // `count + 1` at `u64::MAX` panics
    | DeployFailed        // issuing the auth token failed

  datatype Result<+T> = Ok(value: T) | Err(error: Error) {
    predicate IsFailure() { Err? }
    function PropagateFailure<U>(): Result<U> requires Err? { Err(error) }
    function Extract(): T requires Ok? { value }
  }

  /** The persisted state: the `/counter` slot (empty when absent) and the capability's owner. */
  datatype State = State(slot: seq<byte>, owner: Option<Identity>)

  /** A successful invocation: the response data and the state it leaves. */
  datatype Outcome = Outcome(response: seq<byte>, post: State)

  /** The state of a freshly deployed instance: nothing stored, no capability. */
  const Fresh: State := State([], None)

  /**
   * The two macro-states of a consistent store: uninitialized (nothing stored
   * and no capability) or initialized (eight bytes stored and a capability issued).
   */
  predicate Consistent(s: State)
  {
    || (s.slot == [] && s.owner == None)
    || (|s.slot| == 8 && s.owner.Some?)
  }

  /** The operation selector: the first input, or 0 (read) when there is none. */
  function Opcode(inputs: seq<U128>): (op: U128)
    ensures op == 0 || (|inputs| > 0 && op == inputs[0])
    ensures |inputs| > 0 ==> op == inputs[0]
  {
    if |inputs| == 0 then 0 else inputs[0]
  }

  /** The stored count: the first eight slot bytes as a little-endian `u64`. */
  function LoadCount(slot: seq<byte>): (r: Result<U64>)
    ensures r.Ok? <==> |slot| >= 8
    ensures r.Err? ==> r.error == MalformedState
    ensures r.Ok? ==> EncodeLE64(r.value) == slot[..8]
  {
    if |slot| < 8 then Err(MalformedState)
    else
      var bytes := slot[..8];
      EncodeDecode64(bytes);
      Ok(DecodeLE64(bytes))
  }

  /** The count `LoadCount` yields is the decoding of the first eight bytes. */
  lemma LoadCountDecodes(slot: seq<byte>)
    requires |slot| >= 8
    ensures LoadCount(slot) == Ok(DecodeLE64(slot[..8]))
  {
    var r := LoadCount(slot);
    EncodeLE64Injective(r.value, DecodeLE64(slot[..8]));
    EncodeDecode64(slot[..8]);
  }

  /** `count + 1` under overflow checks: the successor, or a failure at `u64::MAX` (never a wrap to 0). */
  function CheckedIncrement(n: U64): (r: Result<U64>)
    ensures r.Ok? <==> n < U64_MAX
    ensures r.Err? ==> r.error == ArithmeticOverflow
    ensures r.Ok? ==> r.value > n && r.value - n == 1
  {
    if n == U64_MAX then Err(ArithmeticOverflow) else Ok(n + 1)
  }

  /** `count.saturating_sub(1)`: one less, but never below zero. */
  function SaturatingDecrement(n: U64): (r: U64)
    ensures r <= n
    ensures r == 0 <==> n <= 1
    ensures n > 0 ==> r + 1 == n
  {
    if n == 0 then 0 else n - 1
  }

  /**
   * `only_owner`: once a capability exists, exactly its owner passes; before
   * that the guard's answer is whatever the authority collaborator gives.
   */
  predicate IsOwner(owner: Option<Identity>, caller: Identity, auth: Authority): (passes: bool)
    ensures owner.Some? ==> (passes <==> caller == owner.value)
  {
    match owner
    case Some(o) => caller == o
    case None => auth.guardBeforeDeploy
  }

  /** `deploy_auth_token(1)`: issues the capability to the caller, or fails. */
  function Provision(caller: Identity, auth: Authority): (r: Result<Option<Identity>>)
    ensures r.Ok? <==> auth.deploySucceeds
    ensures r.Ok? ==> r.value == Some(caller)
    ensures r.Err? ==> r.error == DeployFailed
  {
    if auth.deploySucceeds then Ok(Some(caller)) else Err(DeployFailed)
  }

  /** The eight zero bytes: the encoding of 0 and the unknown-opcode sentinel. */
  const Zeros: seq<byte> := [0, 0, 0, 0, 0, 0, 0, 0]

  /**
   * Opcode 0: answer the stored count, decoded and re-encoded, which is the
   * first eight stored bytes. Nothing is written; fewer than eight stored
   * bytes (nothing stored before initialization) is a failure.
   */
  function Read(s: State): (r: Result<Outcome>)
    ensures r.Ok? <==> |s.slot| >= 8
    ensures r.Err? ==> r.error == MalformedState
    ensures r.Ok? ==> r.value == Outcome(s.slot[..8], s)
  {
    var count :- LoadCount(s.slot);
    Ok(Outcome(EncodeLE64(count), s))
  }

  /**
   * Opcode 1: the guard first; then the stored count plus one is written and
   * answered. Overflow at `u64::MAX` fails instead of wrapping.
   */
  function Increment(s: State, caller: Identity, auth: Authority): (r: Result<Outcome>)
    ensures !IsOwner(s.owner, caller, auth) ==> r == Err(Unauthorized)
    ensures IsOwner(s.owner, caller, auth) && |s.slot| < 8 ==> r == Err(MalformedState)
    ensures IsOwner(s.owner, caller, auth) && |s.slot| >= 8 ==>
              var v := DecodeLE64(s.slot[..8]);
              if v == U64_MAX then r == Err(ArithmeticOverflow)
              else r.Ok? && |r.value.response| == 8 && DecodeLE64(r.value.response) == v + 1
                   && r.value.post == s.(slot := r.value.response)
  {
    if !IsOwner(s.owner, caller, auth) then Err(Unauthorized)
    else
      var count :- LoadCount(s.slot);
      var next :- CheckedIncrement(count);
      LoadCountDecodes(s.slot);
      DecodeEncode64(next);
      Ok(Outcome(EncodeLE64(next), s.(slot := EncodeLE64(next))))
  }

  /**
   * Opcode 2: the guard first; then the stored count less one, floored at
   * zero, is written and answered.
   */
  function Decrement(s: State, caller: Identity, auth: Authority): (r: Result<Outcome>)
    ensures !IsOwner(s.owner, caller, auth) ==> r == Err(Unauthorized)
    ensures IsOwner(s.owner, caller, auth) && |s.slot| < 8 ==> r == Err(MalformedState)
    ensures IsOwner(s.owner, caller, auth) && |s.slot| >= 8 ==>
              var v := DecodeLE64(s.slot[..8]);
              r.Ok? && |r.value.response| == 8
              && DecodeLE64(r.value.response) == (if v == 0 then 0 else v - 1)
              && r.value.post == s.(slot := r.value.response)
  {
    if !IsOwner(s.owner, caller, auth) then Err(Unauthorized)
    else
      var count :- LoadCount(s.slot);
      var next := SaturatingDecrement(count);
      LoadCountDecodes(s.slot);
      DecodeEncode64(next);
      Ok(Outcome(EncodeLE64(next), s.(slot := EncodeLE64(next))))
  }

  /**
   * Opcode 3: on an empty slot, issue the capability to the caller, then
   * store a zero count and answer `[1]`; if issuing fails nothing is
   * written. On a non-empty slot, answer `[0]` and change nothing.
   */
  function Initialize(s: State, caller: Identity, auth: Authority): (r: Result<Outcome>)
    ensures |s.slot| > 0 ==> r == Ok(Outcome([0], s))
    ensures |s.slot| == 0 && !auth.deploySucceeds ==> r == Err(DeployFailed)
    ensures |s.slot| == 0 && auth.deploySucceeds ==> r == Ok(Outcome([1], State(Zeros, Some(caller))))
  {
    if |s.slot| == 0 then
      var owner :- Provision(caller, auth);
      EncodeZero();
      Ok(Outcome([1], State(EncodeLE64(0), owner)))
    else
      Ok(Outcome([0], s))
  }

  /**
   * One invocation of `execute` on the persisted state `s`: the first input
   * selects the operation. On success it gives the response data and the new
   * state; on failure nothing persists.
   */
  function Step(s: State, ctx: Context, auth: Authority): (r: Result<Outcome>)
    // only initialization touches the capability
    ensures r.Ok? && Opcode(ctx.inputs) != 3 ==> r.value.post.owner == s.owner
    // every write stores exactly eight bytes
    ensures r.Ok? ==> r.value.post.slot == s.slot || |r.value.post.slot| == 8
    // increment and decrement answer with the very bytes they stored
    ensures r.Ok? && Opcode(ctx.inputs) in {1, 2} ==> r.value.response == r.value.post.slot
    // read and unknown opcodes write nothing
    ensures r.Ok? && Opcode(ctx.inputs) !in {1, 2, 3} ==> r.value.post == s
    // the response is eight bytes, except initialization's one-byte flag
    ensures r.Ok? ==> |r.value.response| == if Opcode(ctx.inputs) == 3 then 1 else 8
    // an unknown opcode answers the zero sentinel
    ensures Opcode(ctx.inputs) > 3 ==> r == Ok(Outcome(Zeros, s))
  {
    match Opcode(ctx.inputs)
    case 0 => Read(s)
    case 1 => Increment(s, ctx.caller, auth)
    case 2 => Decrement(s, ctx.caller, auth)
    case 3 => Initialize(s, ctx.caller, auth)
    case _ => Ok(Outcome(Zeros, s))
  }

  /** A contract instance: the `/counter` slot and the issued capability, updated in place. */
  class Counter {
    var slot: seq<byte>
    var owner: Option<Identity>

    /** The persisted state as a value. */
    function Snapshot(): State
      reads this
    {
      State(slot, owner)
    }

    ghost predicate Valid()
      reads this
    {
      Consistent(Snapshot())
    }

    /** A newly deployed instance: nothing stored, no capability. */
    constructor ()
      ensures Valid()
      ensures Snapshot() == Fresh
    {
      slot := [];
      owner := None;
    }

    /**
     * `execute`: dispatch on the first input and run that operation against
     * the fields. The result and the new fields are those `Step` gives; a
     * failure leaves both fields as they were.
     */
    method Execute(ctx: Context, auth: Authority) returns (r: Result<seq<byte>>)
      modifies this
      ensures old(Valid()) ==> Valid()
      ensures Step(old(Snapshot()), ctx, auth).Ok? <==> r.Ok?
      ensures r.Ok? ==> Step(old(Snapshot()), ctx, auth).value == Outcome(r.value, Snapshot())
      ensures r.Err? ==> Step(old(Snapshot()), ctx, auth).error == r.error
      ensures r.Err? ==> slot == old(slot) && owner == old(owner)
    {
      var operation := Opcode(ctx.inputs);
      var data: seq<byte>;
      match operation {
        case 0 =>
          var count :- LoadCount(slot);
          data := EncodeLE64(count);
        case 1 =>
          if !IsOwner(owner, ctx.caller, auth) {
            return Err(Unauthorized);
          }
          var count :- LoadCount(slot);
          var next :- CheckedIncrement(count);
          slot := EncodeLE64(next);
          data := EncodeLE64(next);
        case 2 =>
          if !IsOwner(owner, ctx.caller, auth) {
            return Err(Unauthorized);
          }
          var count :- LoadCount(slot);
          var next := SaturatingDecrement(count);
          slot := EncodeLE64(next);
          data := EncodeLE64(next);
        case 3 =>
          if |slot| == 0 {
            var issued :- Provision(ctx.caller, auth);
            owner := issued;
            slot := EncodeLE64(0);
            data := [1];
          } else {
            data := [0];
          }
        case _ =>
          data := Zeros;
      }
      r := Ok(data);
    }
  }
}
