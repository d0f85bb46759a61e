# Counter alkane

A model of the counter alkane: a smart contract with one entry point,
`Counter::execute`. The entry point dispatches on the first call input and
works on two pieces of persisted state:

- the `/counter` storage slot, which holds a `u64` as eight little-endian
  bytes and is empty until initialization;
- the ownership capability (the auth token), issued by the first successful
  initialization.

The opcodes are:

| opcode | meaning |
|---|---|
| 0, or no inputs | read the count |
| 1 | increment; owner only; overflow at `u64::MAX` fails |
| 2 | decrement; owner only; saturates at 0 |
| 3 | initialize: issue the capability, store 0 and answer `[1]` on an empty slot; otherwise answer `[0]` |
| anything else | answer eight zero bytes |

Files:

- `le64.dfy`, module `LittleEndian`: the `u64::to_le_bytes` and
  `u64::from_le_bytes` conversions as functions over byte sequences, with
  round-trip, bound and injectivity lemmas.
- `counter.dfy`, module `CounterContract`: the contract.
  - `Step` is a pure function. It gives the response bytes and the new
    persisted state of one invocation, or the error that aborts it. Each
    opcode arm is its own function (`Read`, `Increment`, `Decrement`,
    `Initialize`), with a contract covering every branch.
  - The class `Counter` holds the slot and the owner as fields.
  - Its method `Execute` is `execute` written imperatively. It updates the
    fields in place, arm by arm. It is proved to produce exactly the
    response and new state that `Step` gives. A failure leaves the fields
    as they were.
- `counter_properties.dfy`, module `CounterProperties`: what the contract
  promises, stated over `Step`.
  - the guard runs before any storage access;
  - increment and decrement, including the overflow failure and the floor
    at zero;
  - initialization is idempotent;
  - the persisted state stays consistent, and the capability is issued only
    once;
  - repeated calls, stated with `RepeatCall`: `n` increments add `n`, and
    `n` decrements subtract `n` down to 0;
  - the initialization test, extended on a `Counter` object.

The authorization collaborator (`only_owner` and `deploy_auth_token`) lives
in an external crate. Its code is not part of this model. Its answers are a
parameter, `Authority`, with two fields:

- whether issuing the token succeeds on this call;
- what the guard answers while no capability exists.

Once a capability exists, the guard is modelled as "the caller is the
capability's owner".

Bytes are the integer subtype `byte` (0..255), not `bv8`. Every operation
here only stores and compares bytes, or weighs them by powers of 256.

Two edge cases, as the code handles them:

- A read slices the first eight stored bytes (`[..8]`). A slot longer than
  eight bytes is therefore read from its first eight bytes. It is not
  rejected. No write of this contract produces such a slot.
- Increment and decrement call `only_owner` before they read the slot.
  Before initialization, they fail with `Unauthorized` or `MalformedState`
  depending on the guard's answer. Either way nothing is written
  (`UninitializedMutationFails`).

## Model

| member | source | states |
|---|---|---|
| LittleEndian.EncodeLE | src/lib.rs:46 | the `width`-byte little-endian encoding always has exactly `width` bytes |
| LittleEndian.EncodeLE64 | src/lib.rs:46 | `to_le_bytes` of a `u64` always yields eight bytes |
| LittleEndian.DecodeLE64 | src/lib.rs:43-45 | `u64::from_le_bytes` of eight bytes is the `u64` whose `to_le_bytes` gives those bytes back |
| LittleEndian.DecodeLEBound | src/lib.rs:43-45 | a k-byte string decodes to less than 256^k, so eight bytes always decode to a valid `u64` |
| LittleEndian.DecodeEncodeLE | src/lib.rs:43-46 | decoding the `width`-byte encoding of any `n < 256^width` gives back `n` |
| LittleEndian.EncodeDecodeLE | src/lib.rs:43-46 | re-encoding a decoded byte string at its own width gives back the same bytes |
| LittleEndian.DecodeEncode64 | src/lib.rs:52-56 | `u64::from_le_bytes(n.to_le_bytes()) == n` for every `u64` |
| LittleEndian.EncodeDecode64 | src/lib.rs:43-46 | `from_le_bytes` then `to_le_bytes` returns the same eight bytes, so a read answers exactly the stored bytes |
| LittleEndian.EncodeLE64Injective | src/lib.rs:56 | two counts have the same stored bytes if and only if they are equal |
| LittleEndian.EncodeZero | src/lib.rs:76 | `0u64.to_le_bytes()` is eight zero bytes, the same bytes as the invalid-opcode sentinel |
| CounterContract.Opcode | src/lib.rs:32 | the operation is the first input when there is one, and 0 otherwise |
| CounterContract.LoadCount | src/lib.rs:43-45 | loading succeeds if and only if at least eight bytes are stored; otherwise `MalformedState`; the loaded count re-encodes to the first eight stored bytes |
| CounterContract.LoadCountDecodes | src/lib.rs:43-45 | the loaded count is the little-endian decoding of the first eight stored bytes |
| CounterContract.CheckedIncrement | src/lib.rs:55 | `count + 1` succeeds if and only if `count < u64::MAX`, and then yields exactly one more; at the maximum it fails with `ArithmeticOverflow` and never wraps |
| CounterContract.SaturatingDecrement | src/lib.rs:66 | `saturating_sub(1)` never exceeds its input, is zero exactly when the input is 0 or 1, and is one less for every positive input |
| CounterContract.IsOwner | src/lib.rs:51 | the `only_owner` guard: once a capability exists, a caller passes if and only if it is the capability's owner |
| CounterContract.Provision | src/lib.rs:75 | issuing the token succeeds exactly when the authority allows it; it then makes the caller the owner, and otherwise fails with `DeployFailed` |
| CounterContract.Read | src/lib.rs:42-47 | a read succeeds if and only if at least eight bytes are stored; it answers the first eight stored bytes and leaves the state unchanged; its only error is `MalformedState` |
| CounterContract.Increment | src/lib.rs:50-58 | a caller the guard rejects gets `Unauthorized`; too few stored bytes give `MalformedState`; a stored `u64::MAX` gives `ArithmeticOverflow`; otherwise the answer is the eight-byte encoding of count + 1, the slot now holds exactly those bytes, and the owner is unchanged |
| CounterContract.Decrement | src/lib.rs:61-69 | a caller the guard rejects gets `Unauthorized`; too few stored bytes give `MalformedState`; otherwise the answer decodes to count − 1, or 0 from 0, the slot holds exactly the answered bytes, and the owner is unchanged |
| CounterContract.Initialize | src/lib.rs:72-80 | with a non-empty slot the answer is `[0]` and nothing changes; with an empty slot a failed token issue fails and writes nothing; a successful one makes the caller the owner, stores eight zero bytes and answers `[1]` |
| CounterContract.Step | src/lib.rs:23-89 | one invocation: only opcode 3 can change the owner; every write stores eight bytes; increment and decrement answer the bytes they stored; other opcodes write nothing; answers are eight bytes except initialization's one-byte flag; an opcode above 3 answers eight zero bytes and changes nothing |
| CounterContract.Counter.constructor | src/lib.rs:16-17 | a new instance has an empty slot, no capability, and a consistent state |
| CounterContract.Counter.Execute | src/lib.rs:23-89 | running `execute` in place gives exactly the result and the new slot and owner that `Step` gives; a failed call leaves both fields unchanged; a consistent state stays consistent |
| CounterProperties.DefaultOperationIsRead | src/lib.rs:32 | a call with no inputs behaves exactly like opcode 0, a read |
| CounterProperties.ReadHolding | src/lib.rs:42-47 | reading an initialized store answers the encoding of the held count and writes nothing |
| CounterProperties.GuardPrecedesMutation | src/lib.rs:50-51 | for opcodes 1 and 2 a rejected caller gets `Unauthorized` whatever is stored, and once a capability exists only its owner can succeed |
| CounterProperties.UninitializedMutationFails | src/lib.rs:61-64 | before initialization, increment and decrement always fail: `Unauthorized` if the guard rejects the caller, otherwise `MalformedState` |
| CounterProperties.OverflowIsFatal | src/lib.rs:52-56 | an owner increment of a store holding `u64::MAX` fails with `ArithmeticOverflow`, so the count never wraps to 0 |
| CounterProperties.InitializeIdempotent | src/lib.rs:74-80 | after one successful initialization, any further initialization, by any caller and with any authority, answers `[0]` and changes nothing |
| CounterProperties.InitializeTwice | src/lib.rs:42-80 | extends the one-call test at src/lib.rs:103-129: on a fresh instance, initialization answers `[1]` and leaves 0 owned by the caller; a second initialization answers `[0]` (src/lib.rs:78-80); a read then answers eight zero bytes (src/lib.rs:42-47) |
| CounterProperties.StepKeepsConsistent | src/lib.rs:56-76 | every successful call keeps the store in one of its two consistent states: uninitialized (empty, no owner) or initialized (eight bytes, an owner) |
| CounterProperties.CapabilityIssuedOnce | src/lib.rs:74-76 | once initialized, no successful call changes the owner or the eight-byte length of the slot |
| CounterProperties.OnlyInitializeInitializes | src/lib.rs:72-77 | from the uninitialized state, a successful call leaves a non-empty slot if and only if it is opcode 3 |
| CounterProperties.IncrementHolding | src/lib.rs:50-58 | an owner increment of a store holding `v < u64::MAX` answers the encoding of `v + 1` and leaves the store holding `v + 1` |
| CounterProperties.DecrementHolding | src/lib.rs:61-69 | an owner decrement of a store holding `v` answers and stores `v − 1`, or 0 when `v` is 0 |
| CounterProperties.RepeatCall | src/lib.rs:23-89 | a run of identical calls that all succeed leaves a consistent store consistent: initialization's two macro-states are preserved across any number of calls |
| CounterProperties.IncrementsAccumulate | src/lib.rs:50-58 | `n` successive owner increments of a store holding `v` leave it holding `v + n`, whenever that fits a `u64` |
| CounterProperties.DecrementsCountDown | src/lib.rs:61-69 | `n <= v` successive owner decrements of a store holding `v` leave it holding `v − n` |
| CounterProperties.DecrementsFromZero | src/lib.rs:66 | any number of owner decrements of a store holding 0 leave it holding 0 |
| CounterProperties.DecrementsSaturate | src/lib.rs:61-69 | `n` successive owner decrements of a store holding `v` leave it holding `v − n` when `n <= v`, and 0 otherwise |
| CounterProperties.ReadAfterIncrements | src/lib.rs:42-80 | initialize, then `n` owner increments, then a read: the read answers the encoding of `n` |
| CounterProperties.InitializationScenario | src/lib.rs:103-129 | extends the test, which makes one call and asserts only that it succeeds: on a `Counter` object, the test's caller `AlkaneId { block: 0, tx: 0 }` initializes and gets `[1]`; a repeat gets `[0]` (src/lib.rs:78-80); a read gets eight zero bytes (src/lib.rs:42-47) |

## Left out

- Context retrieval through `self.context()` (src/lib.rs:25) is not modelled. The caller and the inputs are an explicit `Context` parameter.
- `println!` debug logging (src/lib.rs:26, 33) is left out. It has no effect on state or response.
- The `declare_alkane!` entry-point macro (src/lib.rs:93) is host plumbing and is left out.
- Of the `CallResponse` envelope, only `data` is modelled. The contract never sets the other fields.
- From the test: `counter.initialize()` and the `unsafe` write of the global `_CONTEXT` (src/lib.rs:116-124) are host set-up. `InitializationScenario` passes the context directly.
- The internals of `only_owner` and `deploy_auth_token` are not part of this model. They live in an external crate. The `Authority` parameter stands in for their answers. The guard's answer before any capability exists is left free. Once a capability exists, the guard is assumed to accept exactly its owner.
- `StoragePointer` keyword hashing and the key-value store are left out. The store is modelled as the single `/counter` slot, with an absent key read as empty.
- Host rollback on failure is not modelled separately. A failing invocation simply has no successor state, and `Execute` returns early before any assignment to its fields.
- Concurrency and atomicity across invocations are guaranteed by the host and are not modelled.
- The `?` on `try_into()` can never fire after a successful eight-byte slice. A short slot makes the slice itself panic. Both are modelled as the single error `MalformedState`.
- CheckedIncrement: models `count + 1` with Rust's overflow checks on, where the add panics at `u64::MAX`. A build with overflow checks off would wrap to 0. That behaviour is not modelled.
- Identities and inputs are `u128` values. They are bounded but otherwise uninterpreted.
