/**
 * What the counter contract promises, stated over `Step`: the response and
 * the persisted state of each opcode, the guard before mutation, idempotent
 * initialization, and the effect of repeated calls.
 */
module CounterProperties {
  import opened LittleEndian
  import opened CounterContract

  /** An initialized store holding `v`, owned by `owner`. */
  function Holding(v: U64, owner: Identity): (s: State)
    ensures Consistent(s)
  {
    State(EncodeLE64(v), Some(owner))
  }

  /** No inputs select opcode 0: the call behaves exactly like a read. */
  lemma DefaultOperationIsRead(s: State, caller: Identity, auth: Authority)
    ensures Step(s, Context(caller, []), auth) == Step(s, Context(caller, [0]), auth)
    ensures Step(s, Context(caller, []), auth) == Read(s)
  {
  }

  /** A read of an initialized store answers the held value's encoding and writes nothing. */
  lemma ReadHolding(v: U64, owner: Identity)
    ensures Read(Holding(v, owner)) == Ok(Outcome(EncodeLE64(v), Holding(v, owner)))
  {
    assert EncodeLE64(v)[..8] == EncodeLE64(v);
  }

  /**
   * Increment and decrement consult the guard before touching the slot: a
   * caller the guard rejects gets `Unauthorized` and nothing is written. Once
   * the capability is issued, only its owner can succeed.
   */
  lemma GuardPrecedesMutation(s: State, ctx: Context, auth: Authority)
    requires Opcode(ctx.inputs) in {1, 2}
    ensures !IsOwner(s.owner, ctx.caller, auth) ==> Step(s, ctx, auth) == Err(Unauthorized)
    ensures s.owner.Some? && Step(s, ctx, auth).Ok? ==> ctx.caller == s.owner.value
  {
  }

  /**
   * Before initialization the slot is empty, so increment and decrement fail
   * and write nothing, whatever the guard answers: with `Unauthorized` if it
   * rejects the caller, otherwise with `MalformedState` when the eight bytes
   * are sliced.
   */
  lemma UninitializedMutationFails(s: State, ctx: Context, auth: Authority)
    requires Opcode(ctx.inputs) in {1, 2}
    requires s.slot == []
    ensures Step(s, ctx, auth) ==
              if IsOwner(s.owner, ctx.caller, auth) then Err(MalformedState) else Err(Unauthorized)
  {
  }

  /** At `u64::MAX` an owner increment fails and the stored value stays at the maximum. */
  lemma OverflowIsFatal(owner: Identity, ctx: Context, auth: Authority)
    requires Opcode(ctx.inputs) == 1 && ctx.caller == owner
    ensures Step(Holding(U64_MAX, owner), ctx, auth) == Err(ArithmeticOverflow)
  {
    var s := Holding(U64_MAX, owner);
    DecodeEncode64(U64_MAX);
    assert s.slot[..8] == s.slot;
  }

  /**
   * Initialization is idempotent: after one successful call, any further
   * initialization, by any caller, answers `[0]` and changes nothing.
   */
  lemma InitializeIdempotent(s: State, ctx: Context, ctx': Context, auth: Authority, auth': Authority)
    requires Opcode(ctx.inputs) == 3 && Opcode(ctx'.inputs) == 3
    requires Step(s, ctx, auth).Ok?
    ensures var post := Step(s, ctx, auth).value.post;
            Step(post, ctx', auth') == Ok(Outcome([0], post))
  {
  }

  /**
   * Two successive initializations of a fresh instance answer `[1]` and then
   * `[0]`; the counter is zero and the initializer owns it, and a read
   * afterwards answers zero.
   */
  lemma InitializeTwice(caller: Identity, auth: Authority)
    requires auth.deploySucceeds
    ensures Step(Fresh, Context(caller, [3]), auth) == Ok(Outcome([1], Holding(0, caller)))
    ensures Step(Holding(0, caller), Context(caller, [3]), auth) == Ok(Outcome([0], Holding(0, caller)))
    ensures Step(Holding(0, caller), Context(caller, [0]), auth) == Ok(Outcome(Zeros, Holding(0, caller)))
  {
    EncodeZero();
    ReadHolding(0, caller);
  }

  /**
   * Every write stores eight bytes and only a successful initialization
   * issues the capability, so the two macro-states are kept.
   */
  lemma StepKeepsConsistent(s: State, ctx: Context, auth: Authority)
    ensures Consistent(s) && Step(s, ctx, auth).Ok? ==> Consistent(Step(s, ctx, auth).value.post)
  {
  }

  /** Once initialized, no call changes the owner or the slot's length. */
  lemma CapabilityIssuedOnce(s: State, ctx: Context, auth: Authority)
    requires Consistent(s) && s.slot != []
    ensures Step(s, ctx, auth).Ok? ==>
              Step(s, ctx, auth).value.post.owner == s.owner &&
              |Step(s, ctx, auth).value.post.slot| == 8
  {
  }

  /** Only initialization leaves the uninitialized state. */
  lemma OnlyInitializeInitializes(s: State, ctx: Context, auth: Authority)
    requires s.slot == []
    requires Step(s, ctx, auth).Ok?
    ensures Step(s, ctx, auth).value.post.slot != [] <==> Opcode(ctx.inputs) == 3
  {
  }

  /** An owner increment below `u64::MAX` of a store holding `v` leaves `v + 1`. */
  lemma IncrementHolding(v: U64, owner: Identity, auth: Authority)
    requires v < U64_MAX
    ensures Increment(Holding(v, owner), owner, auth) ==
              Ok(Outcome(EncodeLE64(v + 1), Holding(v + 1, owner)))
  {
    var s := Holding(v, owner);
    DecodeEncode64(v);
    assert s.slot[..8] == s.slot;
    var r := Increment(s, owner, auth);
    EncodeDecode64(r.value.response);
  }

  /** An owner decrement of a store holding `v` leaves `v - 1`, or zero from zero. */
  lemma DecrementHolding(v: U64, w: U64, owner: Identity, auth: Authority)
    requires w == if v == 0 then 0 else v - 1
    ensures Decrement(Holding(v, owner), owner, auth) ==
              Ok(Outcome(EncodeLE64(w), Holding(w, owner)))
  {
    var s := Holding(v, owner);
    DecodeEncode64(v);
    assert s.slot[..8] == s.slot;
    var r := Decrement(s, owner, auth);
    EncodeDecode64(r.value.response);
  }

  /** `n` identical calls in a row; the first failure stops the sequence. */
  function RepeatCall(s: State, ctx: Context, auth: Authority, n: nat): (r: Result<State>)
    ensures Consistent(s) && r.Ok? ==> Consistent(r.value)
    decreases n
  {
    if n == 0 then Ok(s)
    else
      StepKeepsConsistent(s, ctx, auth);
      var outcome :- Step(s, ctx, auth);
      RepeatCall(outcome.post, ctx, auth, n - 1)
  }

  /** A successful first call hands its state on to the remaining calls. */
  lemma RepeatCallFirst(s: State, ctx: Context, auth: Authority, n: nat, first: Outcome)
    requires n > 0
    requires Step(s, ctx, auth) == Ok(first)
    ensures RepeatCall(s, ctx, auth, n) == RepeatCall(first.post, ctx, auth, n - 1)
  {
  }

  /** `n` owner increments from `v` leave `total == v + n` stored, while that fits a `u64`. */
  lemma {:induction false} IncrementsAccumulate(v: U64, n: nat, total: U64, owner: Identity, auth: Authority)
    requires total == v + n
    ensures RepeatCall(Holding(v, owner), Context(owner, [1]), auth, n) == Ok(Holding(total, owner))
    decreases n
  {
    if n > 0 {
      var ctx := Context(owner, [1]);
      IncrementHolding(v, owner, auth);
      RepeatCallFirst(Holding(v, owner), ctx, auth, n, Outcome(EncodeLE64(v + 1), Holding(v + 1, owner)));
      IncrementsAccumulate(v + 1, n - 1, total, owner, auth);
    }
  }

  /** Running `m` calls and then `n` more is running `m + n` calls. */
  lemma {:induction false} RepeatCallSplit(s: State, ctx: Context, auth: Authority, m: nat, n: nat)
    ensures RepeatCall(s, ctx, auth, m + n) ==
              match RepeatCall(s, ctx, auth, m)
              case Ok(t) => RepeatCall(t, ctx, auth, n)
              case Err(e) => Err(e)
    decreases m
  {
    if m > 0 {
      match Step(s, ctx, auth)
      case Ok(first) =>
        RepeatCallFirst(s, ctx, auth, m, first);
        RepeatCallFirst(s, ctx, auth, m + n, first);
        RepeatCallSplit(first.post, ctx, auth, m - 1, n);
      case Err(e) =>
    }
  }

  /** While `n` does not exceed `v`, `n` owner decrements from `v` leave `rest == v - n`. */
  lemma {:induction false} DecrementsCountDown(v: U64, n: nat, rest: U64, owner: Identity, auth: Authority)
    requires n <= v && rest == v - n
    ensures RepeatCall(Holding(v, owner), Context(owner, [2]), auth, n) == Ok(Holding(rest, owner))
    decreases n
  {
    if n > 0 {
      var ctx := Context(owner, [2]);
      DecrementHolding(v, v - 1, owner, auth);
      RepeatCallFirst(Holding(v, owner), ctx, auth, n, Outcome(EncodeLE64(v - 1), Holding(v - 1, owner)));
      DecrementsCountDown(v - 1, n - 1, rest, owner, auth);
    }
  }

  /** A call that succeeds and leaves the state as it was can be repeated any number of times. */
  lemma {:induction false} RepeatFixedPoint(s: State, ctx: Context, auth: Authority, n: nat, response: seq<byte>)
    requires Step(s, ctx, auth) == Ok(Outcome(response, s))
    ensures RepeatCall(s, ctx, auth, n) == Ok(s)
    decreases n
  {
    if n > 0 {
      RepeatCallFirst(s, ctx, auth, n, Outcome(response, s));
      RepeatFixedPoint(s, ctx, auth, n - 1, response);
    }
  }

  /** From zero, any number of owner decrements leaves zero: the floor holds. */
  lemma DecrementsFromZero(n: nat, owner: Identity, auth: Authority)
    ensures RepeatCall(Holding(0, owner), Context(owner, [2]), auth, n) == Ok(Holding(0, owner))
  {
    DecrementHolding(0, 0, owner, auth);
    RepeatFixedPoint(Holding(0, owner), Context(owner, [2]), auth, n, EncodeLE64(0));
  }

  /** `n` owner decrements from `v` leave `floor`: `v - n`, or zero once `n` exceeds `v`. */
  lemma DecrementsSaturate(v: U64, n: nat, floor: U64, owner: Identity, auth: Authority)
    requires floor == if n <= v then v - n else 0
    ensures RepeatCall(Holding(v, owner), Context(owner, [2]), auth, n) == Ok(Holding(floor, owner))
  {
    if n <= v {
      DecrementsCountDown(v, n, floor, owner, auth);
    } else {
      DecrementsCountDown(v, v, 0, owner, auth);
      DecrementsFromZero(n - v, owner, auth);
      RepeatCallSplit(Holding(v, owner), Context(owner, [2]), auth, v, n - v);
      assert v + (n - v) == n;
    }
  }

  /**
   * After initialization and `n` increments by the initializer, a read
   * answers `n`.
   */
  lemma ReadAfterIncrements(owner: Identity, auth: Authority, n: nat)
    requires auth.deploySucceeds
    requires n <= U64_MAX
    ensures Step(Fresh, Context(owner, [3]), auth) == Ok(Outcome([1], Holding(0, owner)))
    ensures RepeatCall(Holding(0, owner), Context(owner, [1]), auth, n) == Ok(Holding(n, owner))
    ensures Step(Holding(n, owner), Context(owner, [0]), auth) == Ok(Outcome(EncodeLE64(n), Holding(n, owner)))
  {
    InitializeTwice(owner, auth);
    IncrementsAccumulate(0, n, n, owner, auth);
    ReadHolding(n, owner);
  }

  /**
   * The initialization test, run against an instance object: a fresh
   * instance called with input 3 by `AlkaneId { block: 0, tx: 0 }` succeeds
   * with `[1]`; a second identical call answers `[0]`, and a read then
   * answers zero.
   */
  method InitializationScenario(auth: Authority) returns (first: Result<seq<byte>>, second: Result<seq<byte>>, read: Result<seq<byte>>)
    requires auth.deploySucceeds
    ensures first == Ok([1])
    ensures second == Ok([0])
    ensures read == Ok(Zeros)
  {
    var caller := AlkaneId(0, 0);
    InitializeTwice(caller, auth);
    var counter := new Counter();
    first := counter.Execute(Context(caller, [3]), auth);
    second := counter.Execute(Context(caller, [3]), auth);
    read := counter.Execute(Context(caller, [0]), auth);
  }
}
