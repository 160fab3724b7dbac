/**
 A model of the Snowflake identifier generator of package uuidgen.

 An identifier is a 64-bit word made of three fields, from the most to the
 least significant bit: the timestamp (milliseconds since the generator's
 epoch), the 16-bit worker id and the 12-bit per-millisecond sequence.
 The generator keeps the last timestamp it used and the current sequence and
 moves between those states one `Generate` call at a time.

 Go's `uint64` and `uint16` are integers in their ranges, and the bit
 operations of the package are written out on them: `x & (2^k - 1)` keeps
 `x % 2^k`, a `uint64` shift left by 28 keeps the low 36 bits of its operand,
 `uint16` addition wraps at 2^16, and `|` of fields that occupy disjoint bits
 is their sum. The wall clock is not read: every call is handed the clock
 samples it would observe.
 */
module UuidGen {

  type Uint64 = x: int | 0 <= x < 0x1_0000_0000_0000_0000
  type Uint16 = x: int | 0 <= x < 0x1_0000

  const NumWorkerBits := 16
  const NumSequenceBits := 12

  /** Bits left for the timestamp field: 64 - 16 - 12 = 36. */
  const NumTimestampBits := 64 - NumWorkerBits - NumSequenceBits

  /** Go's `-1 ^ (-1 << numWorkerBits)`: 2^16 - 1. */
  const MaxWorkID: Uint16 := 0xFFFF

  /** Go's `-1 ^ (-1 << numSequenceBits)`: 2^12 - 1. */
  const MaxSequence: Uint16 := 0xFFF

  /** The first timestamp that no longer fits in the 36-bit timestamp field. */
  const TimestampLimit: Uint64 := 0x10_0000_0000

  /** The two errors the package returns, without their message text. */
  datatype Error = InvalidWorkerId | InvalidSystemClock

  datatype Result<T> = Success(value: T) | Failure(error: Error)

  /** The mutable part of a generator together with its fixed worker id. */
  datatype State = State(lastTimestamp: Uint64, sequence: Uint16, workerID: Uint16)

  /** The clock samples one `Generate` call observes: the first reading, then
      the readings taken one after another while it waits for the next millisecond. */
  datatype Clock = Clock(now: Uint64, later: seq<Uint64>)

  // ---------------------------------------------------------------------------
  // Packing

  /** Go's `ts << 28` on a `uint64`: the bits pushed past bit 63 are lost, so
      only the timestamp modulo 2^36 survives, moved up by 28 bits. */
  function ShiftLeft28(ts: Uint64): (r: Uint64)
    ensures r == (ts % TimestampLimit) * 0x1000_0000
    ensures ts < TimestampLimit ==> r == ts * 0x1000_0000
  {
    var high, low := ts / TimestampLimit, ts % TimestampLimit;
    assert ts * 0x1000_0000 == high * 0x1_0000_0000_0000_0000 + low * 0x1000_0000;
    (ts * 0x1000_0000) % 0x1_0000_0000_0000_0000
  }

  /** Go's `pack`: `lastTimestamp << 28 | uint64(workerID) << 12 | uint64(sequence)`.
      The timestamp is not masked. The three terms occupy disjoint bits because
      `sequence` is at most `MaxSequence`, which is all `Generate` ever passes. */
  function Pack(s: State): Uint64
    requires s.sequence <= MaxSequence
  {
    ShiftLeft28(s.lastTimestamp) + s.workerID * 0x1000 + s.sequence
  }

  /** The `|` in Go's `pack` adds: on `uint64` words, the shifted timestamp,
      the worker id shifted by 12 and a sequence below 2^12 occupy disjoint
      bits, so or-ing them equals adding them with wrap-around. This is why
      `Pack` writes the `|` as `+`. */
  lemma OrIsSum(ts: bv64, w: bv64, sq: bv64)
    requires w < 0x1_0000 && sq < 0x1000
    ensures (ts << 28) | (w << 12) | sq == (ts << 28) + (w << 12) + sq
  {
  }

  /** Unpacking with the documented shifts and masks (`>> 28`,
      `(>> 12) & 0xFFFF`, `& 0xFFF`) gives the three fields back; the
      timestamp only modulo 2^36, since the packing does not mask it. */
  lemma PackRoundTrip(s: State)
    requires s.sequence <= MaxSequence
    ensures Pack(s) / 0x1000_0000 == s.lastTimestamp % TimestampLimit
    ensures s.lastTimestamp < TimestampLimit ==> Pack(s) / 0x1000_0000 == s.lastTimestamp
    ensures Pack(s) / 0x1000 % 0x1_0000 == s.workerID
    ensures Pack(s) % 0x1000 == s.sequence
  {
    var t := s.lastTimestamp % TimestampLimit;
    assert Pack(s) == t * 0x1000_0000 + (s.workerID * 0x1000 + s.sequence);
    assert Pack(s) / 0x1000 == t * 0x1_0000 + s.workerID;
  }

  /** (timestamp, sequence) ordered lexicographically. */
  predicate EarlierThan(s: State, t: State)
  {
    s.lastTimestamp < t.lastTimestamp
    || (s.lastTimestamp == t.lastTimestamp && s.sequence < t.sequence)
  }

  /** With the fields in range, the packed order of two identifiers of one
      worker is exactly the lexicographic order of (timestamp, sequence). */
  lemma PackOrder(s: State, t: State)
    requires s.workerID == t.workerID
    requires s.sequence <= MaxSequence && t.sequence <= MaxSequence
    requires s.lastTimestamp < TimestampLimit && t.lastTimestamp < TimestampLimit
    ensures Pack(s) < Pack(t) <==> EarlierThan(s, t)
  {
  }

  // ---------------------------------------------------------------------------
  // Construction

  /** Go's `New`: the guard cannot fail for a 16-bit argument, so every worker
      id yields a generator with a zero timestamp and a zero sequence. */
  method New(workerID: Uint16) returns (r: Result<SnowFlake>)
    ensures r.Success?
    ensures fresh(r.value) && r.value.Snapshot() == State(0, 0, workerID)
  {
    if workerID < 0 || workerID > MaxWorkID {
      return Failure(InvalidWorkerId);
    }
    var sf := new SnowFlake(workerID);
    return Success(sf);
  }

  // ---------------------------------------------------------------------------
  // Waiting for the next millisecond

  /** Some sample differs from `lastTimestamp`: the wait loop ends. */
  predicate ClockAdvances(later: seq<Uint64>, lastTimestamp: Uint64)
  {
    exists i :: 0 <= i < |later| && later[i] != lastTimestamp
  }

  /** The timestamp the wait loop ends with: `now` if it already differs from
      `lastTimestamp`, otherwise the first later sample that does. */
  function NextMilli(lastTimestamp: Uint64, now: Uint64, later: seq<Uint64>): (ts: Uint64)
    requires now != lastTimestamp || ClockAdvances(later, lastTimestamp)
    ensures ts != lastTimestamp
    ensures now != lastTimestamp ==> ts == now
    ensures now == lastTimestamp ==> ts in later
    decreases |later|
  {
    if now != lastTimestamp then now
    else
      assert later[0] != lastTimestamp || ClockAdvances(later[1..], lastTimestamp) by {
        var i :| 0 <= i < |later| && later[i] != lastTimestamp;
        if i > 0 { assert later[1..][i - 1] == later[i]; }
      }
      NextMilli(lastTimestamp, later[0], later[1..])
  }

  /** The wait ends on the FIRST sample that differs from `lastTimestamp`. */
  lemma {:induction false} NextMilliIsFirstChange(lastTimestamp: Uint64, now: Uint64, later: seq<Uint64>)
    requires now == lastTimestamp && ClockAdvances(later, lastTimestamp)
    ensures exists k :: 0 <= k < |later| && NextMilli(lastTimestamp, now, later) == later[k] &&
                        forall j :: 0 <= j < k ==> later[j] == lastTimestamp
  {
    if later[0] == lastTimestamp {
      NextMilliIsFirstChange(lastTimestamp, later[0], later[1..]);
      var k :| 0 <= k < |later[1..]| && NextMilli(lastTimestamp, later[0], later[1..]) == later[1..][k]
        && (forall j :: 0 <= j < k ==> later[1..][j] == lastTimestamp);
      assert NextMilli(lastTimestamp, now, later) == later[k + 1];
      assert forall j :: 0 <= j < k + 1 ==> later[j] == lastTimestamp by {
        forall j | 0 <= j < k + 1 ensures later[j] == lastTimestamp {
          if j > 0 { assert later[j] == later[1..][j - 1]; }
        }
      }
    } else {
      assert NextMilli(lastTimestamp, now, later) == later[0];
    }
  }

  // ---------------------------------------------------------------------------
  // One call of Generate, as a function of the state and the clock

  /** Go's `(sequence + 1) & MaxSequence` on a `uint16`. */
  function NextSequence(sequence: Uint16): (r: Uint16)
    ensures r <= MaxSequence
    ensures sequence < MaxSequence ==> r == sequence + 1
    ensures sequence == MaxSequence ==> r == 0
  {
    (sequence + 1) % 0x1_0000 % (MaxSequence + 1)
  }

  /** The sequence runs out in this millisecond, so the call waits for the next one. */
  predicate MustWait(s: State, now: Uint64)
  {
    now == s.lastTimestamp && NextSequence(s.sequence) == 0
  }

  /** What `Generate` needs of the clock to return at all: when it has to wait,
      some later sample shows another millisecond. */
  predicate WaitTerminates(s: State, now: Uint64, later: seq<Uint64>)
  {
    MustWait(s, now) ==> ClockAdvances(later, s.lastTimestamp)
  }

  /** One `Generate` call: its result and the state it leaves behind. The
      sequence is updated before the clock check, so a failing call still
      resets it; only `lastTimestamp` is kept. */
  function Step(s: State, now: Uint64, later: seq<Uint64>): (r: (Result<Uint64>, State))
    requires WaitTerminates(s, now, later)
    ensures r.1.sequence <= MaxSequence && r.1.workerID == s.workerID
    ensures r.0.Failure? ==> r.0.error == InvalidSystemClock && r.1 == s.(sequence := 0)
    ensures r.0.Success? ==> r.0.value == Pack(r.1) && r.1.lastTimestamp >= s.lastTimestamp
  {
    var sequence := if now == s.lastTimestamp then NextSequence(s.sequence) else 0;
    var ts := if now == s.lastTimestamp && sequence == 0 then NextMilli(s.lastTimestamp, now, later) else now;
    if ts < s.lastTimestamp then
      (Failure(InvalidSystemClock), s.(sequence := sequence))
    else
      var next := State(ts, sequence, s.workerID);
      (Success(Pack(next)), next)
  }

  /** Same millisecond, sequence not exhausted: no wait, the sequence goes up
      by one and the identifier is the previous one plus one. */
  lemma SameMilliIncrements(s: State, now: Uint64, later: seq<Uint64>)
    requires now == s.lastTimestamp && s.sequence < MaxSequence
    ensures !MustWait(s, now)
    ensures Step(s, now, later).1 == s.(sequence := s.sequence + 1)
    ensures Step(s, now, later).0 == Success(Pack(s) + 1)
  {
  }

  /** The state after `n` more calls that all read the clock at
      `s.lastTimestamp`, while the sequence has room for them. */
  function SameMilliCalls(s: State, n: nat): (r: State)
    requires s.sequence + n <= MaxSequence
    ensures r == s.(sequence := s.sequence + n)
    decreases n
  {
    if n == 0 then s
    else
      var prev := SameMilliCalls(s, n - 1);
      SameMilliIncrements(prev, s.lastTimestamp, []);
      Step(prev, s.lastTimestamp, []).1
  }

  /** A millisecond holds 4096 identifiers: after the call that opens it
      (sequence 0), each further call in it issues the next identifier up to
      sequence 4095, and the call after that has to wait. */
  lemma MillisecondCapacity(s: State, k: nat)
    requires s.sequence == 0 && k < MaxSequence
    ensures Step(SameMilliCalls(s, k), s.lastTimestamp, []).1 == SameMilliCalls(s, k + 1)
    ensures Step(SameMilliCalls(s, k), s.lastTimestamp, []).0 == Success(Pack(s) + k + 1)
    ensures MustWait(SameMilliCalls(s, MaxSequence), s.lastTimestamp)
  {
    SameMilliIncrements(SameMilliCalls(s, k), s.lastTimestamp, []);
  }

  /** A first sample from another millisecond resets the sequence to zero; the
      call fails exactly when that sample lies behind `lastTimestamp`. */
  lemma NewMilliResets(s: State, now: Uint64, later: seq<Uint64>)
    requires now != s.lastTimestamp
    ensures Step(s, now, later).1.sequence == 0
    ensures Step(s, now, later).0.Failure? <==> now < s.lastTimestamp
    ensures now > s.lastTimestamp ==>
      Step(s, now, later) == (Success(Pack(State(now, 0, s.workerID))), State(now, 0, s.workerID))
  {
  }

  /** Sequence exhausted: the sequence wraps to zero and the call continues
      with the first later sample from another millisecond. */
  lemma WrapWaitsForNextMilli(s: State, now: Uint64, later: seq<Uint64>)
    requires MustWait(s, now) && ClockAdvances(later, s.lastTimestamp)
    ensures var ts := NextMilli(s.lastTimestamp, now, later);
      && ts != s.lastTimestamp
      && (exists k :: 0 <= k < |later| && ts == later[k] && forall j :: 0 <= j < k ==> later[j] == s.lastTimestamp)
      && Step(s, now, later).1.sequence == 0
      && (ts < s.lastTimestamp ==> Step(s, now, later) == (Failure(InvalidSystemClock), s.(sequence := 0)))
      && (ts > s.lastTimestamp ==> Step(s, now, later) == (Success(Pack(State(ts, 0, s.workerID))), State(ts, 0, s.workerID)))
  {
    NextMilliIsFirstChange(s.lastTimestamp, now, later);
  }

  /** A successful call, from a state whose sequence is in range, issues an
      identifier above the packing of the state it started from. */
  lemma StepIncreases(s: State, now: Uint64, later: seq<Uint64>)
    requires WaitTerminates(s, now, later) && s.sequence <= MaxSequence
    requires Step(s, now, later).0.Success?
    requires Step(s, now, later).1.lastTimestamp < TimestampLimit
    ensures Pack(s) < Step(s, now, later).0.value
  {
    var next := Step(s, now, later).1;
    if MustWait(s, now) {
      assert next.lastTimestamp != s.lastTimestamp;
    }
    PackOrder(s, next);
  }

  /** Two consecutive successful calls: the second identifier is larger. */
  lemma ConsecutiveIdsIncrease(s: State, c1: Clock, c2: Clock)
    requires WaitTerminates(s, c1.now, c1.later)
    requires Step(s, c1.now, c1.later).0.Success?
    requires WaitTerminates(Step(s, c1.now, c1.later).1, c2.now, c2.later)
    requires Step(Step(s, c1.now, c1.later).1, c2.now, c2.later).0.Success?
    requires Step(Step(s, c1.now, c1.later).1, c2.now, c2.later).1.lastTimestamp < TimestampLimit
    ensures Step(s, c1.now, c1.later).0.value < Step(Step(s, c1.now, c1.later).1, c2.now, c2.later).0.value
  {
    StepIncreases(Step(s, c1.now, c1.later).1, c2.now, c2.later);
  }

  // ---------------------------------------------------------------------------
  // Runs of calls

  /** `ids` were issued by successive successful calls from `states[0]`, the
      i-th call seeing `clocks[i]` and leaving `states[i + 1]`. */
  ghost predicate SuccessfulRun(states: seq<State>, clocks: seq<Clock>, ids: seq<Uint64>)
  {
    && |states| == |clocks| + 1 && |ids| == |clocks|
    && forall i :: 0 <= i < |clocks| ==>
      && WaitTerminates(states[i], clocks[i].now, clocks[i].later)
      && Step(states[i], clocks[i].now, clocks[i].later) == (Success(ids[i]), states[i + 1])
  }

  ghost predicate StrictlyIncreasing(ids: seq<Uint64>)
  {
    forall i, j :: 0 <= i < j < |ids| ==> ids[i] < ids[j]
  }

  lemma {:induction false} AdjacentIncreasing(ids: seq<Uint64>)
    requires forall i :: 0 <= i < |ids| - 1 ==> ids[i] < ids[i + 1]
    ensures StrictlyIncreasing(ids)
  {
    if |ids| > 1 {
      var tail := ids[1..];
      assert forall i :: 0 <= i < |tail| - 1 ==> tail[i] < tail[i + 1] by {
        forall i | 0 <= i < |tail| - 1 ensures tail[i] < tail[i + 1] {
          assert tail[i] == ids[i + 1] && tail[i + 1] == ids[i + 2];
        }
      }
      AdjacentIncreasing(tail);
      forall i, j | 0 <= i < j < |ids| ensures ids[i] < ids[j] {
        if i == 0 {
          assert ids[0] < ids[1] == tail[0];
          if j > 1 { assert tail[0] < tail[j - 1] == ids[j]; }
        } else {
          assert tail[i - 1] < tail[j - 1];
        }
      }
    }
  }

  /** Identifiers issued by consecutive successful calls strictly increase,
      so they are pairwise distinct, while the timestamps fit their 36 bits. */
  lemma SuccessfulRunIncreasing(states: seq<State>, clocks: seq<Clock>, ids: seq<Uint64>)
    requires SuccessfulRun(states, clocks, ids)
    requires forall i :: 0 < i < |states| ==> states[i].lastTimestamp < TimestampLimit
    ensures StrictlyIncreasing(ids)
    ensures forall i, j :: 0 <= i < j < |ids| ==> ids[i] != ids[j]
  {
    forall i | 0 <= i < |ids| - 1 ensures ids[i] < ids[i + 1] {
      var c, d := clocks[i], clocks[i + 1];
      assert Step(states[i], c.now, c.later) == (Success(ids[i]), states[i + 1]);
      assert WaitTerminates(states[i + 1], d.now, d.later);
      assert Step(states[i + 1], d.now, d.later) == (Success(ids[i + 1]), states[i + 2]);
      StepIncreases(states[i + 1], d.now, d.later);
    }
    AdjacentIncreasing(ids);
  }

  /** After a clock regression the sequence has been reset while
      `lastTimestamp` was kept, so a later call in that millisecond issues an
      identifier that was already returned. */
  lemma RegressionReissuesId(w: Uint16)
    ensures var s0 := State(0, 0, w);
      var s1 := Step(s0, 10, []).1;
      var s2 := Step(s1, 10, []).1;
      var s3 := Step(s2, 5, []).1;
      && Step(s0, 10, []).0 == Success(Pack(State(10, 0, w)))
      && Step(s1, 10, []).0 == Success(Pack(State(10, 1, w)))
      && Step(s2, 5, []).0 == Failure(InvalidSystemClock)
      && Step(s3, 10, []).0 == Step(s1, 10, []).0
  {
  }

  /** The failed call can also make the next identifier go BACKWARDS: from
      sequence 5 in millisecond 10, a regressed sample zeroes the sequence,
      and the next call in millisecond 10 issues id(10, 1), below the id(10, 5)
      issued before. */
  lemma RegressionIssuesSmallerId(w: Uint16)
    ensures var s0 := State(10, 5, w);
      var s1 := Step(s0, 5, []).1;
      && Step(s0, 5, []).0 == Failure(InvalidSystemClock)
      && Step(s1, 10, []).0 == Success(Pack(State(10, 1, w)))
      && Step(s1, 10, []).0.value < Pack(s0)
  {
  }

  // ---------------------------------------------------------------------------
  // The corrected call: `Generate` promises a unique identifier, so a call
  // that fails with "invalid system clock" should leave the state unchanged

  /** `Step` with the state restored on a clock regression. Its result is the
      code's result, the sequence stays in range, the packed state never goes
      down, and an identifier it issues lies above the packing of the state
      it started from, whatever happened before. */
  function IntendedStep(s: State, now: Uint64, later: seq<Uint64>): (r: (Result<Uint64>, State))
    requires WaitTerminates(s, now, later)
    ensures r.0 == Step(s, now, later).0
    ensures r.0.Failure? ==> r.1 == s
    ensures s.sequence <= MaxSequence ==> r.1.sequence <= MaxSequence
    ensures s.sequence <= MaxSequence && r.1.lastTimestamp < TimestampLimit ==>
      r.1.sequence <= MaxSequence && Pack(s) <= Pack(r.1)
    ensures s.sequence <= MaxSequence && r.0.Success? && r.1.lastTimestamp < TimestampLimit ==>
      r.1.sequence <= MaxSequence && Pack(s) < r.0.value
  {
    var (result, next) := Step(s, now, later);
    if result.Failure? then (result, s)
    else if s.sequence <= MaxSequence && next.lastTimestamp < TimestampLimit then
      StepIncreases(s, now, later);
      (result, next)
    else (result, next)
  }

  /** Any run of intended calls, successful or not, from `states[0]`. */
  ghost predicate IntendedRun(states: seq<State>, clocks: seq<Clock>, results: seq<Result<Uint64>>)
  {
    && |states| == |clocks| + 1 && |results| == |clocks|
    && forall i :: 0 <= i < |clocks| ==>
      && WaitTerminates(states[i], clocks[i].now, clocks[i].later)
      && IntendedStep(states[i], clocks[i].now, clocks[i].later) == (results[i], states[i + 1])
  }

  /** Along an intended run every state keeps its sequence in range. */
  lemma {:induction false} IntendedRunSequenceInRange(states: seq<State>, clocks: seq<Clock>, results: seq<Result<Uint64>>, j: nat)
    requires IntendedRun(states, clocks, results)
    requires states[0].sequence <= MaxSequence
    requires j < |states|
    ensures states[j].sequence <= MaxSequence
    decreases j
  {
    if j > 0 {
      IntendedRunSequenceInRange(states, clocks, results, j - 1);
      var c := clocks[j - 1];
      assert IntendedStep(states[j - 1], c.now, c.later) == (results[j - 1], states[j]);
    }
  }

  /** Along an intended run the packed state never decreases. */
  lemma {:induction false} IntendedRunPackGrows(states: seq<State>, clocks: seq<Clock>, results: seq<Result<Uint64>>, i: nat, j: nat)
    requires IntendedRun(states, clocks, results)
    requires forall k :: 0 <= k < |states| ==>
      states[k].sequence <= MaxSequence && states[k].lastTimestamp < TimestampLimit
    requires i <= j < |states|
    ensures Pack(states[i]) <= Pack(states[j])
    decreases j - i
  {
    if i < j {
      IntendedRunPackGrows(states, clocks, results, i, j - 1);
      var c := clocks[j - 1];
      assert IntendedStep(states[j - 1], c.now, c.later) == (results[j - 1], states[j]);
    }
  }

  /** With the intended behaviour, the successful calls of any run, failures
      interleaved, issue strictly increasing identifiers. */
  lemma IntendedRunNeverReissues(states: seq<State>, clocks: seq<Clock>, results: seq<Result<Uint64>>)
    requires IntendedRun(states, clocks, results)
    requires states[0].sequence <= MaxSequence
    requires forall k :: 0 <= k < |states| ==> states[k].lastTimestamp < TimestampLimit
    ensures forall i, j :: 0 <= i < j < |results| && results[i].Success? && results[j].Success? ==>
      results[i].value < results[j].value
  {
    forall k | 0 <= k < |states| ensures states[k].sequence <= MaxSequence {
      IntendedRunSequenceInRange(states, clocks, results, k);
    }
    forall i, j | 0 <= i < j < |results| && results[i].Success? && results[j].Success?
      ensures results[i].value < results[j].value
    {
      var c, d := clocks[i], clocks[j];
      assert IntendedStep(states[i], c.now, c.later) == (results[i], states[i + 1]);
      assert IntendedStep(states[j], d.now, d.later) == (results[j], states[j + 1]);
      IntendedRunPackGrows(states, clocks, results, i + 1, j);
    }
  }

  // ---------------------------------------------------------------------------
  // The generator object

  /** Go's `SnowFlake`: the state a `Generate` call reads and updates in place.
      The mutex is left out; each `Generate` runs as one atomic step. */
  class SnowFlake {
    var lastTimestamp: Uint64
    var sequence: Uint16
    const workerID: Uint16

    /** The struct literal `&SnowFlake{workerID: workerID}`. */
    constructor (workerID: Uint16)
      ensures lastTimestamp == 0 && sequence == 0 && this.workerID == workerID
    {
      this.workerID := workerID;
      lastTimestamp := 0;
      sequence := 0;
    }

    function Snapshot(): State
      reads this
    {
      State(lastTimestamp, sequence, workerID)
    }

    /** Go's `waitNextMilli`: read the clock until it shows a millisecond other
        than `lastTimestamp`; nothing of the generator changes. */
    method WaitNextMilli(now: Uint64, later: seq<Uint64>) returns (ts: Uint64)
      requires now != lastTimestamp || ClockAdvances(later, lastTimestamp)
      ensures ts != lastTimestamp
      ensures ts == NextMilli(lastTimestamp, now, later)
    {
      ts := now;
      var i := 0;
      while ts == lastTimestamp
        invariant 0 <= i <= |later|
        invariant ts != lastTimestamp || ClockAdvances(later[i..], lastTimestamp)
        invariant NextMilli(lastTimestamp, ts, later[i..]) == NextMilli(lastTimestamp, now, later)
        decreases |later| - i
      {
        assert later[i..][1..] == later[i + 1..];
        ts := later[i];
        i := i + 1;
      }
    }

    /** Go's `Generate`, with the clock samples it observes passed in. */
    method Generate(now: Uint64, later: seq<Uint64>) returns (r: Result<Uint64>)
      requires WaitTerminates(Snapshot(), now, later)
      modifies this
      ensures (r, Snapshot()) == Step(old(Snapshot()), now, later)
      ensures sequence <= MaxSequence
      ensures r.Failure? ==> lastTimestamp == old(lastTimestamp)
      ensures r.Success? ==> lastTimestamp >= old(lastTimestamp) && r.value == Pack(Snapshot())
    {
      var ts := now;
      if ts == lastTimestamp {
        sequence := NextSequence(sequence);
        if sequence == 0 {
          ts := WaitNextMilli(ts, later);
        }
      } else {
        sequence := 0;
      }

      if ts < lastTimestamp {
        return Failure(InvalidSystemClock);
      }

      lastTimestamp := ts;
      return Success(Pack(Snapshot()));
    }
  }
}
