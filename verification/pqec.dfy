/**
 * The PQEC ("post-quantum error correction") service of quantum_blockchain_qsharp/host/pqec_app.py,
 * on the path taken when `qsharp` is not installed: the statistics collector with its two bounded
 * queues, the error-correction simulator's code-type gate, and the PQEC chain with its 256-bit
 * proofs, hybrid hash, mining and proof verification.
 *
 * Every draw from `random` is a parameter; clock readings are reals.
 */
module Pqec {
  import opened Wrappers
  import opened Text
  import opened Radix
  import opened Oracles

  // ---------------------------------------------------------------- bounded queues

  /** The `maxlen` of both statistics deques. */
  const QueueCapacity := 100

  /**
   * `deque.append` on a deque created with `maxlen=100`: the new entry goes last, and a full deque
   * drops its oldest entry. What remains before the new entry is the newest part of the old deque.
   */
  function BoundedAppend<T>(q: seq<T>, x: T): (r: seq<T>)
    requires |q| <= QueueCapacity
    ensures |r| == Min(|q| + 1, QueueCapacity)
    ensures r[|r| - 1] == x
    ensures forall i :: 0 <= i < |r| - 1 ==> r[i] == q[|q| - (|r| - 1) + i]
  {
    if |q| < QueueCapacity then q + [x] else q[1..] + [x]
  }

  /** The deque after appending `xs` in order to an empty one. */
  function Replayed<T>(xs: seq<T>): (r: seq<T>)
    ensures |r| <= QueueCapacity
  {
    if |xs| == 0 then [] else BoundedAppend(Replayed(xs[..|xs| - 1]), xs[|xs| - 1])
  }

  /** A bounded deque holds exactly the last `min(n, 100)` entries appended, oldest first. */
  lemma {:induction false} ReplayedKeepsLatest<T>(xs: seq<T>)
    ensures Replayed(xs) == xs[|xs| - Min(|xs|, QueueCapacity)..]
  {
    if |xs| <= QueueCapacity {
      ReplayedShort(xs);
    } else {
      ReplayedLong(xs);
    }
  }

  /** Up to the capacity nothing is dropped: the deque is everything appended. */
  lemma {:induction false} ReplayedShort<T>(xs: seq<T>)
    requires |xs| <= QueueCapacity
    ensures Replayed(xs) == xs
    decreases |xs|
  {
    var n := |xs|;
    if n > 0 {
      var prefix := xs[..n - 1];
      ReplayedShort(prefix);
      AppendWithRoom(prefix, xs[n - 1]);
      assert prefix + [xs[n - 1]] == xs;
    }
  }

  /** Past the capacity the deque is the last 100 entries appended. */
  lemma {:induction false} ReplayedLong<T>(xs: seq<T>)
    requires |xs| > QueueCapacity
    ensures Replayed(xs) == xs[|xs| - QueueCapacity..]
    decreases |xs|
  {
    var n := |xs|;
    var prefix := xs[..n - 1];
    if n - 1 == QueueCapacity {
      ReplayedShort(prefix);
    } else {
      ReplayedLong(prefix);
    }
    assert prefix[n - 1 - QueueCapacity..] == xs[n - 1 - QueueCapacity..n - 1];
    AppendWhenFull(xs);
  }

  lemma AppendWithRoom<T>(q: seq<T>, x: T)
    requires |q| < QueueCapacity
    ensures BoundedAppend(q, x) == q + [x]
  {
  }

  lemma AppendWhenFull<T>(xs: seq<T>)
    requires |xs| > QueueCapacity
    requires Replayed(xs[..|xs| - 1]) == xs[|xs| - 1 - QueueCapacity..|xs| - 1]
    ensures Replayed(xs) == xs[|xs| - QueueCapacity..]
  {
    var n, x := |xs|, xs[|xs| - 1];
    var tail := xs[n - 1 - QueueCapacity..n - 1];
    assert Replayed(xs) == BoundedAppend(tail, x) == tail[1..] + [x];
    assert tail[1..] == xs[n - QueueCapacity..n - 1];
    SliceSnoc(xs, n - QueueCapacity);
  }

  lemma SliceSnoc<T>(xs: seq<T>, i: int)
    requires 0 <= i < |xs|
    ensures xs[i..|xs| - 1] + [xs[|xs| - 1]] == xs[i..]
  {
    assert xs[i..] == xs[i..|xs| - 1] + xs[|xs| - 1..];
  }

  // ---------------------------------------------------------------- PQECStats

  datatype Stats = Stats(
    totalProofs: nat,
    successfulProofs: nat,
    miningTimes: seq<real>,
    verificationResults: seq<bool>,
    totalBlocks: nat)

  /** Every proof counted is a successful one, and neither queue exceeds its capacity. */
  predicate StatsInvariant(s: Stats)
  {
    s.totalProofs == s.successfulProofs
    && |s.miningTimes| <= QueueCapacity
    && |s.verificationResults| <= QueueCapacity
  }

  /** `PQECStats()`: zero counters and empty queues. */
  function NewStats(): (s: Stats)
    ensures StatsInvariant(s)
    ensures s.totalProofs == 0 && s.totalBlocks == 0 && |s.miningTimes| == 0 && |s.verificationResults| == 0
  {
    Stats(0, 0, [], [], 0)
  }

  /**
   * `add_mining_time`: both proof counters go up by one, the time is queued, and the
   * verification queue and block count are untouched.
   */
  function AddMiningTime(s: Stats, miningTime: real): (r: Stats)
    requires StatsInvariant(s)
    ensures StatsInvariant(r)
    ensures r.totalProofs == s.totalProofs + 1 && r.successfulProofs == s.successfulProofs + 1
    ensures |r.miningTimes| == Min(|s.miningTimes| + 1, QueueCapacity) && Last(r.miningTimes) == miningTime
    ensures r.verificationResults == s.verificationResults && r.totalBlocks == s.totalBlocks
  {
    s.(totalProofs := s.totalProofs + 1,
       successfulProofs := s.successfulProofs + 1,
       miningTimes := BoundedAppend(s.miningTimes, miningTime))
  }

  /** `add_verification`: only the verification queue changes, gaining the result last. */
  function AddVerification(s: Stats, valid: bool): (r: Stats)
    requires StatsInvariant(s)
    ensures StatsInvariant(r)
    ensures |r.verificationResults| == Min(|s.verificationResults| + 1, QueueCapacity)
    ensures Last(r.verificationResults) == valid
    ensures r.(verificationResults := s.verificationResults) == s
  {
    s.(verificationResults := BoundedAppend(s.verificationResults, valid))
  }

  /**
   * The success rate `get_stats` reports, as an exact ratio (the rounding to four places is not
   * modelled). Because the counters move together, it is 1 once anything was mined, else 0.
   */
  function SuccessRate(s: Stats): (r: real)
    requires StatsInvariant(s)
    ensures r == if s.totalProofs > 0 then 1.0 else 0.0
  {
    if s.totalProofs > 0 then
      var t := s.totalProofs as real;
      assert s.successfulProofs as real / t == t / t == 1.0;
      s.successfulProofs as real / t
    else 0.0
  }

  /** What the `/api/pqec/mine` and `/api/pqec/verify` routes record. */
  datatype StatsEvent = Mined(miningTime: real) | Verified(valid: bool)

  /**
   * The statistics after a run of routes from start-up: a mine records its time and counts a
   * block, a verification records its result.
   */
  function Replay(events: seq<StatsEvent>): (s: Stats)
    ensures StatsInvariant(s)
  {
    if |events| == 0 then NewStats()
    else
      var before := Replay(events[..|events| - 1]);
      match events[|events| - 1]
      case Mined(t) =>
        var after := AddMiningTime(before, t);
        after.(totalBlocks := after.totalBlocks + 1)
      case Verified(v) => AddVerification(before, v)
  }

  function MiningTimes(events: seq<StatsEvent>): seq<real>
  {
    if |events| == 0 then []
    else MiningTimes(events[..|events| - 1]) + (if events[|events| - 1].Mined? then [events[|events| - 1].miningTime] else [])
  }

  function VerificationResults(events: seq<StatsEvent>): seq<bool>
  {
    if |events| == 0 then []
    else VerificationResults(events[..|events| - 1]) + (if events[|events| - 1].Verified? then [events[|events| - 1].valid] else [])
  }

  /** Each queue is the bounded replay of its own kind of event, and the counters count the mines. */
  lemma {:induction false} ReplayQueues(events: seq<StatsEvent>)
    ensures Replay(events).miningTimes == Replayed(MiningTimes(events))
    ensures Replay(events).verificationResults == Replayed(VerificationResults(events))
    ensures Replay(events).totalProofs == Replay(events).totalBlocks == |MiningTimes(events)|
    decreases |events|
  {
    if |events| > 0 {
      var prefix := events[..|events| - 1];
      ReplayQueues(prefix);
      var ms := MiningTimes(prefix);
      var vs := VerificationResults(prefix);
      match events[|events| - 1]
      case Mined(t) =>
        assert MiningTimes(events) == ms + [t];
        assert (ms + [t])[..|ms|] == ms;
        assert VerificationResults(events) == vs + [];
        assert vs + [] == vs;
      case Verified(v) =>
        assert VerificationResults(events) == vs + [v];
        assert (vs + [v])[..|vs|] == vs;
        assert MiningTimes(events) == ms + [];
        assert ms + [] == ms;
    }
  }

  /**
   * After any run of routes, `mining_times` holds the last `min(n, 100)` mining times and
   * `verification_results` the last `min(m, 100)` verification results, in the order recorded,
   * and `total_proofs == successful_proofs`.
   */
  lemma StatsHoldLatest(events: seq<StatsEvent>)
    ensures var ms := MiningTimes(events);
      Replay(events).miningTimes == ms[|ms| - Min(|ms|, QueueCapacity)..]
    ensures var vs := VerificationResults(events);
      Replay(events).verificationResults == vs[|vs| - Min(|vs|, QueueCapacity)..]
    ensures Replay(events).totalProofs == Replay(events).successfulProofs
  {
    ReplayQueues(events);
    ReplayedKeepsLatest(MiningTimes(events));
    ReplayedKeepsLatest(VerificationResults(events));
  }

  // ---------------------------------------------------------------- QuantumErrorCorrection

  const SupportedCodes: seq<string> := ["Shor", "Surface", "BitFlip"]

  function Toggle(c: char): char
  {
    if c == '0' then '1' else '0'
  }

  /** The state with the positions `flips` marks toggled; `flips` may be shorter than the state. */
  function FlipWhere(s: string, flips: seq<bool>): (r: string)
    ensures |r| == |s|
    ensures forall k :: 0 <= k < |s| ==> r[k] == if k < |flips| && flips[k] then Toggle(s[k]) else s[k]
  {
    seq(|s|, k requires 0 <= k < |s| => if k < |flips| && flips[k] then Toggle(s[k]) else s[k])
  }

  function IntsOf(bits: seq<Bit>): (r: seq<Json>)
    ensures |r| == |bits|
  {
    seq(|bits|, k requires 0 <= k < |bits| => Int(bits[k]))
  }

  /**
   * `_syndrome_detection`: two random parities for Shor, four random stabilizers for Surface, the
   * parity of the ones for BitFlip, and an empty dictionary for any other code. So the syndrome is
   * truthy exactly for the supported codes.
   */
  function SyndromeDetection(state: string, codeType: string, parityX: Bit, parityZ: Bit,
                             stabilizers: seq<Bit>): (r: map<string, Json>)
    ensures |r| > 0 <==> codeType in SupportedCodes
  {
    if codeType == "Shor" then
      assert "parity_x" in map["parity_x" := Int(parityX), "parity_z" := Int(parityZ)];
      map["parity_x" := Int(parityX), "parity_z" := Int(parityZ)]
    else if codeType == "Surface" then
      assert "stabilizers" in map["stabilizers" := Arr(IntsOf(stabilizers))];
      map["stabilizers" := Arr(IntsOf(stabilizers))]
    else if codeType == "BitFlip" then
      assert "syndrome" in map["syndrome" := Int(Count(state, '1') % 2)];
      map["syndrome" := Int(Count(state, '1') % 2)]
    else map[]
  }

  /** The random choices one `apply_*_code` call makes. */
  datatype Draws = Draws(
    /** The first `random.random()`, compared with the error probability */
    roll: real,
    /** Shor: `random.choice(["bit_flip", "phase_flip"])` chose "phase_flip" */
    phaseFlip: bool,
    /** Shor: `random.randint(0, len(bits) - 1)` */
    position: nat,
    /** Surface and BitFlip: which positions the noise toggles */
    flips: seq<bool>,
    parityX: Bit,
    parityZ: Bit,
    stabilizers: seq<Bit>)

  /** Draws `random` can produce on the 16-bit test state: a roll in [0, 1) and a position in range. */
  predicate Drawable(d: Draws)
  {
    0.0 <= d.roll < 1.0 && d.position < |TestState|
  }

  /** The tuple an `apply_*_code` call returns. */
  datatype Applied = Applied(original: string, corrected: string, success: bool)

  /**
   * `apply_shor_code`: on an error, one bit is toggled or an "E" appended, then the syndrome is
   * taken and `_correct_error` hands the corrupted state back unchanged.
   */
  function ApplyShorCode(state: string, errorProb: real, d: Draws): (r: Applied)
    requires d.position < |state|
    ensures r.original == state
    ensures r.success
    ensures d.roll >= errorProb ==> r.corrected == state
    ensures d.roll < errorProb && d.phaseFlip ==> r.corrected == state + "E"
    ensures d.roll < errorProb && !d.phaseFlip ==>
      |r.corrected| == |state| && r.corrected[d.position] != state[d.position]
  {
    if d.roll < errorProb then
      var corrupted := if d.phaseFlip then state + "E" else state[d.position := Toggle(state[d.position])];
      var correction := SyndromeDetection(corrupted, "Shor", d.parityX, d.parityZ, d.stabilizers);
      if |correction| > 0 then Applied(state, corrupted, true) else Applied(state, corrupted, false)
    else Applied(state, state, true)
  }

  /**
   * `apply_surface_code`: on an error, depolarizing noise may toggle one of the first three
   * positions, and the syndrome always allows the (identity) correction.
   */
  function ApplySurfaceCode(state: string, errorProb: real, d: Draws): (r: Applied)
    ensures r.original == state
    ensures r.success
    ensures |r.corrected| == |state|
    ensures forall k :: 3 <= k < |state| ==> r.corrected[k] == state[k]
    ensures d.roll >= errorProb ==> r.corrected == state
  {
    if d.roll < errorProb then
      var corrupted := FlipWhere(state, PyTake(d.flips, 3));
      var correction := SyndromeDetection(corrupted, "Surface", d.parityX, d.parityZ, d.stabilizers);
      if |correction| > 0 then Applied(state, corrupted, true) else Applied(state, corrupted, false)
    else Applied(state, state, true)
  }

  /**
   * `apply_bitflip_code` as written: `corrected` is assigned only on the error path, so the
   * error-free path's `return original, corrected, True` raises `UnboundLocalError` (`None`).
   * On the error path noise may toggle any position and decoding returns the noisy state.
   */
  function ApplyBitFlipCodeAsWritten(state: string, errorProb: real, d: Draws): (r: Option<Applied>)
    ensures r.None? <==> d.roll >= errorProb
    ensures r.Some? ==> r.value.original == state && r.value.success && |r.value.corrected| == |state|
  {
    if d.roll < errorProb then Some(Applied(state, FlipWhere(state, d.flips), true))
    else None
  }

  /**
   * `apply_bitflip_code` as evidently intended: the error-free path hands back the state
   * untouched, like the other two codes do.
   */
  function ApplyBitFlipCode(state: string, errorProb: real, d: Draws): (r: Applied)
    ensures r.original == state && r.success && |r.corrected| == |state|
    ensures d.roll >= errorProb ==> r.corrected == state
  {
    if d.roll < errorProb then Applied(state, FlipWhere(state, d.flips), true)
    else Applied(state, state, true)
  }

  /** The two versions agree wherever the written one does not raise. */
  lemma BitFlipAgreesOnErrorPath(state: string, errorProb: real, d: Draws)
    ensures ApplyBitFlipCodeAsWritten(state, errorProb, d).Some? ==>
      ApplyBitFlipCodeAsWritten(state, errorProb, d).value == ApplyBitFlipCode(state, errorProb, d)
  {
  }

  /** The dictionary `simulate_error` returns. */
  datatype Simulation =
    | Unsupported(message: string)
    | Simulated(originalState: string, errorApplied: string, corrected: bool, codeType: string)

  const TestState := "0000000000000000"

  /** The report `simulate_error` builds once the chosen code has run. */
  function Report(c: Crypto, codeType: string, errorProbability: real, applied: Applied): Simulation
  {
    Simulated(TestState, c.pyStr(Float(errorProbability)), applied.success, codeType)
  }

  function UnsupportedMessage(codeType: string): string
  {
    "\U{4e0d}\U{652f}\U{6301}\U{7684}\U{7ea0}\U{9519}\U{7801}: " + codeType
  }

  /**
   * `simulate_error` as written, with `None` for the `UnboundLocalError` of the bit-flip code:
   * it raises exactly for "BitFlip" when no error is drawn.
   */
  function SimulateErrorAsWritten(c: Crypto, codeType: string, errorProbability: real, d: Draws): (r: Option<Simulation>)
    requires Drawable(d)
    ensures r.None? <==> codeType == "BitFlip" && d.roll >= errorProbability
    ensures r.Some? ==> (r.value.Unsupported? <==> codeType !in SupportedCodes)
  {
    if codeType !in SupportedCodes then Some(Unsupported(UnsupportedMessage(codeType)))
    else if codeType == "Shor" then Some(Report(c, codeType, errorProbability, ApplyShorCode(TestState, errorProbability, d)))
    else if codeType == "Surface" then Some(Report(c, codeType, errorProbability, ApplySurfaceCode(TestState, errorProbability, d)))
    else
      var applied := ApplyBitFlipCodeAsWritten(TestState, errorProbability, d);
      if applied.Some? then Some(Report(c, codeType, errorProbability, applied.value)) else None
  }

  /**
   * With error probability 0 no error is ever drawn, so the written bit-flip simulation raises on
   * every draw `random` can make.
   */
  lemma BitFlipAtZeroProbabilityRaises(c: Crypto, d: Draws)
    requires Drawable(d)
    ensures SimulateErrorAsWritten(c, "BitFlip", 0.0, d).None?
  {
  }

  /**
   * `simulate_error` with the corrected bit-flip code: an error result exactly for code types
   * outside {Shor, Surface, BitFlip}; otherwise the report names the code, shows the all-zero
   * 16-bit test state as the original, echoes `str(error_probability)` and says the correction
   * succeeded, whatever the draws.
   */
  function SimulateError(c: Crypto, codeType: string, errorProbability: real, d: Draws): (r: Simulation)
    requires Drawable(d)
    ensures r.Unsupported? <==> codeType !in SupportedCodes
    ensures r.Simulated? ==> r.originalState == Zeros(16) && r.codeType == codeType && r.corrected
    ensures r.Simulated? ==> r.errorApplied == c.pyStr(Float(errorProbability))
  {
    if codeType !in SupportedCodes then Unsupported(UnsupportedMessage(codeType))
    else
      assert TestState == Zeros(16);
      var applied :=
        if codeType == "Shor" then ApplyShorCode(TestState, errorProbability, d)
        else if codeType == "Surface" then ApplySurfaceCode(TestState, errorProbability, d)
        else ApplyBitFlipCode(TestState, errorProbability, d);
      Report(c, codeType, errorProbability, applied)
  }

  /** Wherever the written `simulate_error` returns, it returns what the corrected one does. */
  lemma SimulateErrorAgrees(c: Crypto, codeType: string, errorProbability: real, d: Draws)
    requires Drawable(d)
    ensures SimulateErrorAsWritten(c, codeType, errorProbability, d).Some? ==>
      SimulateErrorAsWritten(c, codeType, errorProbability, d).value == SimulateError(c, codeType, errorProbability, d)
  {
    BitFlipAgreesOnErrorPath(TestState, errorProbability, d);
  }

  // ---------------------------------------------------------------- PQECBlockchain

  datatype Block = Block(
    index: int,
    timestamp: real,
    data: Json,
    previousHash: string,
    proof: string,
    hash: string)

  /**
   * `_generate_proof`: the 256 binary digits drawn after seeding, read as a number and written as
   * hex zero-filled to 64 characters. Any draw of at most 256 digits gives exactly 64 lower-case
   * hex digits carrying the drawn value.
   */
  function GenerateProof(proofBits: string): (r: string)
    requires IsBinary(proofBits) && |proofBits| > 0
    ensures |proofBits| <= 256 ==> |r| == 64 && IsLowerHex(r) && HexValue(r) == BinValue(proofBits)
  {
    if |proofBits| <= 256 then
      ProofFits(proofBits);
      HexWidthExact(BinValue(proofBits), 64);
      HexWidth(BinValue(proofBits), 64)
    else HexWidth(BinValue(proofBits), 64)
  }

  /** At most 256 binary digits have a value that 64 hex digits can hold. */
  lemma ProofFits(proofBits: string)
    requires |proofBits| <= 256
    ensures BinValue(proofBits) < Pow(16, 64)
  {
    BinValueBound(proofBits);
    PowMonotone(2, |proofBits|, 256);
    PowTwoFour(64);
  }

  /**
   * `_calculate_hash` without Q#: `s` is the sorted-key JSON of index, timestamp, data,
   * previous_hash and proof, and the hash is `sha256(s + sha256(s)[:16])`.
   */
  function CalculateHash(c: Crypto, b: Block): string
  {
    HybridHash(c, c.dumps(Obj(map[
      "index" := Int(b.index),
      "timestamp" := Float(b.timestamp),
      "data" := b.data,
      "previous_hash" := Str(b.previousHash),
      "proof" := Str(b.proof)])))
  }

  predicate Sealed(c: Crypto, b: Block)
  {
    b.hash == CalculateHash(c, b)
  }

  /**
   * What every block of the PQEC chain satisfies: it is sealed, its index is its position and it
   * links to its predecessor. The service never checks this; it is the invariant its two
   * constructors keep.
   */
  predicate WellFormed(c: Crypto, chain: seq<Block>)
  {
    && (forall i :: 0 <= i < |chain| ==> Sealed(c, chain[i]) && chain[i].index == i)
    && (forall i :: 1 <= i < |chain| ==> chain[i].previousHash == chain[i - 1].hash)
  }

  /** Seal a block: its hash is computed last, over everything else. */
  function Seal(c: Crypto, b: Block): (r: Block)
    ensures Sealed(c, r) && r.(hash := b.hash) == b
  {
    b.(hash := CalculateHash(c, b))
  }

  /**
   * `create_genesis_block`: index 0, data "PQEC Genesis Block", 64 '0's as previous hash and a
   * proof for index 0; the chain it starts is well formed.
   */
  function Genesis(c: Crypto, timestamp: real, proofBits: string): (r: seq<Block>)
    requires IsBinary(proofBits) && |proofBits| > 0
    ensures |r| == 1 && r[0].previousHash == Zeros(64) && r[0].data == Str("PQEC Genesis Block")
    ensures r[0].proof == GenerateProof(proofBits)
    ensures WellFormed(c, r)
  {
    [Seal(c, Block(0, timestamp, Str("PQEC Genesis Block"), Zeros(64), GenerateProof(proofBits), ""))]
  }

  /** What `mine_block` returns besides growing the chain. */
  datatype Mining = Mining(block: Block, proof: string, miningTime: real)

  /**
   * `mine_block`: exactly one block is appended, with index the old length, the old last hash as
   * link, the proof for that index and a hash over its own fields. The block is determined by the
   * data, the clock and the proof draw alone: `difficulty` is accepted and never read.
   */
  function MineBlock(c: Crypto, chain: seq<Block>, data: Json, difficulty: int, startTime: real,
                     blockTime: real, endTime: real, proofBits: string): (r: (seq<Block>, Mining))
    requires |chain| > 0
    requires IsBinary(proofBits) && |proofBits| > 0
    ensures r.0 == chain + [r.1.block]
    ensures r.1.block == Block(|chain|, blockTime, data, Last(chain).hash, r.1.proof, r.1.block.hash)
    ensures Sealed(c, r.1.block)
    ensures r.1.proof == GenerateProof(proofBits)
    ensures r.1.miningTime == endTime - startTime
  {
    var proof := GenerateProof(proofBits);
    var block := Seal(c, Block(|chain|, blockTime, data, Last(chain).hash, proof, ""));
    (chain + [block], Mining(block, proof, endTime - startTime))
  }

  /** A sealed block with the next index and the last hash as link extends a well-formed chain. */
  lemma AppendWellFormed(c: Crypto, chain: seq<Block>, block: Block)
    requires |chain| > 0 && WellFormed(c, chain)
    requires Sealed(c, block) && block.index == |chain| && block.previousHash == Last(chain).hash
    ensures WellFormed(c, chain + [block])
  {
    var r := chain + [block];
    forall i | 0 <= i < |r|
      ensures Sealed(c, r[i]) && r[i].index == i
    {
      if i < |chain| {
        assert r[i] == chain[i];
      }
    }
    forall i | 1 <= i < |r|
      ensures r[i].previousHash == r[i - 1].hash
    {
      if i < |chain| {
        assert r[i] == chain[i] && r[i - 1] == chain[i - 1];
      } else {
        assert r[i - 1] == Last(chain);
      }
    }
  }

  /** `mine_block` keeps the chain well formed. */
  lemma MineBlockKeepsWellFormed(c: Crypto, chain: seq<Block>, data: Json, difficulty: int, startTime: real,
                                 blockTime: real, endTime: real, proofBits: string)
    requires |chain| > 0 && WellFormed(c, chain)
    requires IsBinary(proofBits) && |proofBits| > 0
    ensures WellFormed(c, MineBlock(c, chain, data, difficulty, startTime, blockTime, endTime, proofBits).0)
  {
    var (r, mining) := MineBlock(c, chain, data, difficulty, startTime, blockTime, endTime, proofBits);
    AppendWellFormed(c, chain, mining.block);
  }

  /** The verdict of `verify_proof`. */
  datatype ProofCheck = ProofCheck(valid: bool, proofHash: string)

  /**
   * `verify_proof`: the proof is valid when `sha256(proof)[:difficulty] == "0" * difficulty`, with
   * Python's slice for any difficulty. For a difficulty `d >= 0` that is: the hash has at least `d`
   * characters and the first `d` are all '0', so difficulty 0 always passes. A negative difficulty
   * asks for an empty target and a slice that drops `-d` characters, which is empty only when the
   * hash has at most `-d` characters. The reported hash is the first 16 characters and "...".
   */
  function VerifyProof(c: Crypto, proof: string, difficulty: int): (r: ProofCheck)
    ensures var h := HexDigest(c, proof);
      && (difficulty >= 0 ==> (r.valid <==> difficulty <= |h| && AllZeros(h[..difficulty])))
      && (difficulty < 0 ==> (r.valid <==> |h| <= -difficulty))
    ensures difficulty == 0 ==> r.valid
    ensures r.proofHash == PyTake(HexDigest(c, proof), 16) + "..."
  {
    var proofHash := HexDigest(c, proof);
    MeetsTargetMeaning(proofHash, difficulty);
    ProofCheck(PyTake(proofHash, difficulty) == Zeros(difficulty), PyTake(proofHash, 16) + "...")
  }
}
