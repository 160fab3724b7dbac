# Snowflake identifier generator (uuidgen), modelled in Dafny

The Go package `uuidgen` issues 64-bit identifiers in the Snowflake layout.
From the most significant bit down, an identifier packs a 36-bit timestamp
(milliseconds since the package's epoch), a 16-bit worker id and a 12-bit
per-millisecond sequence. A `SnowFlake` generator keeps the last timestamp it
used and the current sequence. On each `Generate` call it:

- increments the sequence modulo 4096 when the clock still shows the same
  millisecond;
- busy-waits for the next millisecond when the sequence wraps;
- resets the sequence to 0 when the millisecond changed;
- fails when the final timestamp lies behind the last one;
- otherwise stores the timestamp and returns the packed identifier.

`uuidgen.dfy` (module `UuidGen`) models this in two layers:

- **Pure model of one call.** `Step(state, now, later)` gives the result and
  the next state of one `Generate` call. The lemmas about it cover:
  - the bit layout;
  - the three clock cases;
  - the sequence bound;
  - ordering of the identifiers across runs of calls.
- **Imperative layer.** `SnowFlake` is a class with the Go struct's fields.
  Its `Generate` and `WaitNextMilli` methods update and read those fields as
  the Go code does, and are proved equal to `Step` and `NextMilli`.

Modelling choices:

- **Integer types.** `uint64` and `uint16` are integers in their ranges, and
  the package's bit operations are written as arithmetic:
  - `ts << 28` on a `uint64` keeps `ts % 2^36` shifted up by 28 bits
    (`ShiftLeft28` proves this from `(ts * 2^28) % 2^64`);
  - `x & MaxSequence` is `x % 4096`;
  - `uint16` addition wraps at 2^16;
  - the `|` of the three disjoint fields is their sum (`OrIsSum` proves this
    on 64-bit words).
- **The clock is an input.** `Generate` receives its first sample `now`.
  The samples the wait loop would read next are a sequence `later`. The loop
  ends only if the clock leaves `lastTimestamp`, so a call that must wait
  requires that some later sample differs (`WaitTerminates`).
- **A failed call still resets the sequence.** The code sets `sequence` before
  it checks for a clock regression and does not restore it, so after a
  failure the sequence is 0 and `lastTimestamp` is unchanged. `Generate`
  promises a unique identifier (uuidgen.go:86), so a call that fails with
  "invalid system clock" should leave the state unchanged. The model
  follows the code: `Step` and `SnowFlake.Generate` reset the sequence on
  failure. The difference is recorded under Findings.
- **One identifier-ordering property depends on the failure behaviour.**
  Strict increase of identifiers is proved for consecutive successful calls
  (`SuccessfulRunIncreasing`). For any interleaving of failures it is proved
  only for the corrected `IntendedStep`.

## Model

| member | source | states |
|---|---|---|
| `UuidGen.ShiftLeft28` | uuidgen.go:34 | `lastTimestamp << 28` on a uint64 equals `(ts % 2^36) * 2^28`: the bits above the 36-bit field are lost, and nothing is lost when `ts < 2^36` |
| `UuidGen.Pack` | uuidgen.go:33-35 | `lastTimestamp << 28 \| workerID << 12 \| sequence` on a uint64, for a sequence of at most 4095; no contract of its own: its properties are `OrIsSum`, `PackRoundTrip` and `PackOrder` |
| `UuidGen.OrIsSum` | uuidgen.go:34 | on 64-bit words, or-ing the shifted timestamp, a worker id below 2^16 shifted by 12 and a sequence below 2^12 equals adding them, so `Pack`'s sum is Go's `\|` |
| `UuidGen.PackRoundTrip` | uuidgen.go:33-35 | unpacking the packed word gives the fields back: `>> 28` gives the timestamp modulo 2^36 (exactly the timestamp when it is below 2^36), `(>> 12) & 0xFFFF` gives the worker id and `& 0xFFF` gives the sequence |
| `UuidGen.PackOrder` | uuidgen.go:33-35 | for one worker with fields in range, one packed identifier is below another exactly when its (timestamp, sequence) pair is lexicographically earlier |
| `UuidGen.New` | uuidgen.go:39-44 | succeeds for every 16-bit worker id, because the guard against 65535 can never fire; the new generator has timestamp 0, sequence 0 and the given worker id |
| `UuidGen.SnowFlake.constructor` | uuidgen.go:43 | the struct literal: zero timestamp, zero sequence, the given worker id |
| `UuidGen.NextMilli` | uuidgen.go:111-117 | the wait loop's final timestamp differs from `lastTimestamp`; it is `now` when `now` already differs, and otherwise one of the later samples |
| `UuidGen.NextMilliIsFirstChange` | uuidgen.go:112-115 | when waiting, the loop stops at the first later sample that differs from `lastTimestamp`: every sample before it equals `lastTimestamp` |
| `UuidGen.SnowFlake.WaitNextMilli` | uuidgen.go:111-117 | the loop over the clock samples returns `NextMilli` of its inputs, a timestamp other than `lastTimestamp`, and changes no field |
| `UuidGen.NextSequence` | uuidgen.go:93 | `(sequence + 1) & MaxSequence` is at most 4095; it is `sequence + 1` below 4095 and wraps to 0 at 4095 |
| `UuidGen.Step` | uuidgen.go:87-107 | after every call, successful or not, the sequence is at most 4095 and the worker id is unchanged; a failure is `InvalidSystemClock` and leaves `lastTimestamp` unchanged with the sequence at 0; a success never lowers `lastTimestamp` and returns the packing of the new state |
| `UuidGen.SnowFlake.Generate` | uuidgen.go:87-107 | the method's result and new fields are exactly `Step` of the old fields and the clock samples; the sequence stays at most 4095; a failure keeps `lastTimestamp`; a success returns `pack()` of the new state |
| `UuidGen.SameMilliIncrements` | uuidgen.go:92-96 | same millisecond with the sequence below 4095: no wait, the sequence goes up by one and the identifier is the previous one plus one |
| `UuidGen.SameMilliCalls` | uuidgen.go:92-96 | `n` calls in the current millisecond, while the sequence has room, only add `n` to the sequence |
| `UuidGen.MillisecondCapacity` | uuidgen.go:92-96 | after the call that opens a millisecond, each further call in it issues the next identifier through sequence 4095, and the call after that must wait: 4096 identifiers per millisecond |
| `UuidGen.NewMilliResets` | uuidgen.go:97-103 | a first sample from another millisecond resets the sequence to 0; the call fails exactly when that sample is behind `lastTimestamp`, and otherwise stores it and returns its packing with sequence 0 |
| `UuidGen.WrapWaitsForNextMilli` | uuidgen.go:93-103 | on wrap-around the sequence becomes 0 and the call continues with the first later sample that differs from `lastTimestamp`; it fails if that sample is behind and otherwise stores it |
| `UuidGen.StepIncreases` | uuidgen.go:101-106 | a successful call from a state with its sequence in range, ending on a timestamp below 2^36, returns an identifier above the packing of the state it started from |
| `UuidGen.ConsecutiveIdsIncrease` | uuidgen.go:87-107 | of two consecutive successful calls, the second returns a strictly larger identifier (timestamps below 2^36) |
| `UuidGen.SuccessfulRunIncreasing` | uuidgen.go:87-107 | the identifiers of any run of consecutive successful calls strictly increase and so are pairwise distinct (timestamps below 2^36) |
| `UuidGen.RegressionReissuesId` | uuidgen.go:97-103 | clock samples 10, 10, 5, 10 from a fresh generator: the failed third call resets the sequence, and the fourth call returns the identifier the second call already returned |
| `UuidGen.RegressionIssuesSmallerId` | uuidgen.go:97-103 | from sequence 5 in millisecond 10, a regressed sample 5 fails and zeroes the sequence, and the next sample 10 returns id(10, 1), strictly below the id(10, 5) issued before |
| `UuidGen.IntendedStep` | uuidgen.go:101-103 | the corrected call returns the code's result, but a failed call leaves the state exactly as it was; from a sequence in range the new sequence stays in range, the packed state never decreases, and an identifier it issues is above the packing of the state it started from (timestamps below 2^36) |
| `UuidGen.IntendedRunSequenceInRange` | uuidgen.go:93-98 | along any run of corrected calls started from a sequence in range, every state's sequence stays at most 4095 |
| `UuidGen.IntendedRunPackGrows` | uuidgen.go:101-106 | along any run of corrected calls, the packing of the state never decreases |
| `UuidGen.IntendedRunNeverReissues` | uuidgen.go:87-107 | with the corrected failure path, the identifiers of the successful calls of any run, failures interleaved, strictly increase (timestamps below 2^36) |

## Left out

- The `sync.Mutex` around `Generate` (uuidgen.go:30, uuidgen.go:88-89): concurrency is not modelled. Each `Generate` call is one atomic step, which is what the lock provides.
- `time.Now`, `time.Sleep` and `timestamp()` (uuidgen.go:113-114, uuidgen.go:119-122) are wall-clock I/O. They are replaced by the clock samples passed to each call. The subtraction of the epoch `1526285084373` belongs to that clock source and is not modelled.
- `GetK8sWorkID` (uuidgen.go:48-84) reads the host's network interfaces. Its worker id is an input of `New` here.
- `eth0IP` (uuidgen.go:125-127) declares a `uint16` result but has an empty body with no return statement. Go rejects that at compile time ("missing return"), so uuidgen.go does not build as shown, and the function has no behaviour to model.
- The error messages are the two `Error` constructors, without their text.
- UuidGen.Pack: defined only for a sequence of at most 4095, the only values `Generate` passes it (it packs right after the sequence is masked or zeroed). For larger values, Go's `|` would merge sequence bits into the worker-id field, and this model does not capture that.
- UuidGen.SnowFlake.Generate: a call that has to wait requires that some later clock sample leaves `lastTimestamp`. The Go loop never ends on a frozen clock, and that non-termination is not modelled.
- UuidGen.Step: requires the same of the clock as `Generate`, for the same reason.
- The identifier-ordering lemmas assume timestamps below 2^36. Beyond that, the unmasked shift drops high timestamp bits and identifiers wrap; `ShiftLeft28` and `PackRoundTrip` state what happens to those bits.

## Findings

| source | as written | input that shows it | evidently intended | confidence | as-written member | corrected member |
|---|---|---|---|---|---|---|
| uuidgen.go:97-103 | the sequence is reset (or wrapped) before the clock-regression check, and the error return does not restore it | from a fresh generator, clock samples 10, 10, 5, 10: the first two calls return id(10, 0) and id(10, 1), the third fails, and the fourth returns id(10, 1) again; likewise from sequence 5 in millisecond 10, samples 5, 10 fail and then return id(10, 1), below the id(10, 5) already issued (`RegressionIssuesSmallerId`) | a failed call leaves `lastTimestamp` and `sequence` unchanged, so no identifier is issued twice; `IntendedRunNeverReissues` proves this for the corrected call | not executed | `UuidGen.RegressionReissuesId` | `UuidGen.IntendedStep` |
