/**
 * The all-in-one service of quantum_blockchain_qsharp/host/unified_api.py: its chain (validated by
 * links alone), the PQEC consensus engine with its proof format and verifier, and the result codes
 * of the `handle_action` dispatcher.
 *
 * Every draw from `random` is a parameter: a digit pick is an index into the list chosen from.
 * Clock readings are parameters; a stored `str(time.time())` is kept as its text.
 */
module UnifiedApi {
  import opened Wrappers
  import opened Text
  import opened Radix
  import opened Oracles

  // ---------------------------------------------------------------- QuantumBlockchain

  /** How many hex digits `_quantum_signature(bits)` draws: `bits // 4`, nothing when that is negative. */
  function SignatureLength(bits: int): nat
  {
    if bits / 4 > 0 then bits / 4 else 0
  }

  /**
   * `_quantum_signature(bits)`: `bits // 4` characters, the `i`-th being the hex digit picked by
   * the `i`-th draw. The result is exactly that long and made of lower-case hex digits only.
   */
  method QuantumSignature(pick: nat -> int, bits: int) returns (signature: string)
    requires forall k: nat :: 0 <= pick(k) < 16
    ensures |signature| == SignatureLength(bits)
    ensures IsLowerHex(signature)
    ensures forall i :: 0 <= i < |signature| ==> signature[i] == HexDigits[pick(i)]
  {
    signature := "";
    var i := 0;
    while i < SignatureLength(bits)
      invariant 0 <= i <= SignatureLength(bits)
      invariant |signature| == i
      invariant forall j :: 0 <= j < i ==> signature[j] == HexDigits[pick(j)]
    {
      signature := signature + [HexDigits[pick(i)]];
      i := i + 1;
    }
  }

  /**
   * `_quantum_hash(data)`: the hex digest of `str(data)`, followed by a fresh 64-bit signature
   * (`quantumPart`), hashed again.
   */
  function QuantumHash(c: Crypto, data: Json, quantumPart: string): string
  {
    HexDigest(c, HexDigest(c, c.pyStr(data)) + quantumPart)
  }

  datatype Block = Block(
    index: int,
    timestamp: string,
    data: Json,
    previousHash: string,
    quantumSignature: string,
    quantumProof: string,
    hash: string)

  /** `is_valid`: every block after the first names its predecessor's hash. */
  predicate Linked(chain: seq<Block>)
  {
    forall i :: 1 <= i < |chain| ==> chain[i].previousHash == chain[i - 1].hash
  }

  /**
   * `is_valid` as written: the loop over blocks 1.. that stops at the first broken link. It reads
   * no hash but the stored ones, so it accepts exactly the linked chains.
   */
  method IsValid(chain: seq<Block>) returns (valid: bool)
    ensures valid <==> Linked(chain)
  {
    var i := 1;
    while i < |chain|
      invariant 1 <= i
      invariant forall j :: 1 <= j < i && j < |chain| ==> chain[j].previousHash == chain[j - 1].hash
    {
      if chain[i].previousHash != chain[i - 1].hash {
        return false;
      }
      i := i + 1;
    }
    return true;
  }

  /**
   * Since no hash is recomputed, rewriting the data of any block of a linked chain leaves it
   * linked: tampering with contents goes unnoticed by `is_valid`.
   */
  lemma RewrittenDataStaysLinked(chain: seq<Block>, i: int, data: Json)
    requires Linked(chain) && 0 <= i < |chain|
    ensures Linked(chain[i := chain[i].(data := data)])
  {
    var r := chain[i := chain[i].(data := data)];
    forall j | 1 <= j < |r|
      ensures r[j].previousHash == r[j - 1].hash
    {
      assert r[j].previousHash == chain[j].previousHash && r[j - 1].hash == chain[j - 1].hash;
    }
  }

  const GenesisData := Obj(map["message" := Str("Genesis Block - Q-CHAIN"), "token" := Str("QTC")])

  /**
   * `create_genesis_block`: index 0, 64 '0's as previous hash, an empty proof and the hash of
   * `{"genesis": 0}` rather than of the block.
   */
  function Genesis(c: Crypto, timestamp: string, signature: string, quantumPart: string): (r: seq<Block>)
    ensures |r| == 1 && r[0].index == 0 && r[0].previousHash == Zeros(64)
    ensures r[0].data == GenesisData && r[0].quantumProof == ""
    ensures r[0].hash == QuantumHash(c, Obj(map["genesis" := Int(0)]), quantumPart)
    ensures Linked(r)
  {
    [Block(0, timestamp, GenesisData, Zeros(64), signature, "", QuantumHash(c, Obj(map["genesis" := Int(0)]), quantumPart))]
  }

  /**
   * `add_block(data, quantum_proof)`: one block is appended with index the old length and the
   * previous block's hash as link; its hash covers index, data, link and proof only.
   */
  function AddBlock(c: Crypto, chain: seq<Block>, data: Json, quantumProof: string, timestamp: string,
                    signature: string, quantumPart: string): (r: (Block, seq<Block>))
    requires |chain| > 0
    ensures r.1 == chain + [r.0]
    ensures r.0.index == |chain| && r.0.previousHash == Last(chain).hash
    ensures r.0.data == data && r.0.quantumProof == quantumProof && r.0.timestamp == timestamp
    ensures r.0.hash == QuantumHash(c, Obj(map[
      "index" := Int(|chain|), "data" := data, "previous_hash" := Str(Last(chain).hash),
      "proof" := Str(quantumProof)]), quantumPart)
  {
    var hash := QuantumHash(c, Obj(map[
      "index" := Int(|chain|), "data" := data, "previous_hash" := Str(Last(chain).hash),
      "proof" := Str(quantumProof)]), quantumPart);
    var block := Block(|chain|, timestamp, data, Last(chain).hash, signature, quantumProof, hash);
    (block, chain + [block])
  }

  /** `add_block` keeps a linked chain linked, so `is_valid` stays true. */
  lemma AddBlockKeepsLinked(c: Crypto, chain: seq<Block>, data: Json, quantumProof: string, timestamp: string,
                            signature: string, quantumPart: string)
    requires |chain| > 0 && Linked(chain)
    ensures Linked(AddBlock(c, chain, data, quantumProof, timestamp, signature, quantumPart).1)
  {
    var r := AddBlock(c, chain, data, quantumProof, timestamp, signature, quantumPart).1;
    forall i | 1 <= i < |r|
      ensures r[i].previousHash == r[i - 1].hash
    {
      if i < |chain| {
        assert r[i] == chain[i] && r[i - 1] == chain[i - 1];
      }
    }
  }

  // ---------------------------------------------------------------- PQECConsensus

  datatype Consensus = Consensus(totalProofs: nat, successfulProofs: nat, totalTime: real, difficulty: int)

  /** `PQECConsensus()`: no proofs yet and difficulty 3. */
  function NewConsensus(): (r: Consensus)
    ensures r.totalProofs == r.successfulProofs == 0 && r.difficulty == 3
  {
    Consensus(0, 0, 0.0, 3)
  }

  const Operations: seq<string> := ["encode", "syndrome", "correct", "verify"]
  const CodeTypes: seq<string> := ["Shor", "Surface", "BitFlip"]

  /** One `_simulate_error_correction`: an operation name followed by "0" or "1"; never a colon. */
  function Correction(operation: nat, bit: nat): (r: string)
    requires operation < 4 && bit < 2
    ensures Count(r, ':') == 0 && |r| >= 2
  {
    var r := Operations[operation] + (if bit == 0 then "0" else "1");
    assert forall i :: 0 <= i < |r| ==> 'a' <= r[i] <= 'z' || r[i] == '0' || r[i] == '1';
    CountAbsent(r, ':');
    r
  }

  /** The random choices of one `_simulate_error_correction`: operation index and digit. */
  ghost predicate ValidDraws(draw: nat -> (nat, nat))
  {
    forall k: nat :: draw(k).0 < 4 && draw(k).1 < 2
  }

  /** The first `n` corrections drawn, concatenated; a text with no colon in it. */
  function Corrections(draw: nat -> (nat, nat), n: nat): (r: string)
    requires ValidDraws(draw)
    ensures Count(r, ':') == 0 && |r| >= 2 * n
  {
    if n == 0 then ""
    else
      var prefix := Corrections(draw, n - 1);
      var next := Correction(draw(n - 1).0, draw(n - 1).1);
      CountAppend(prefix, next, ':');
      prefix + next
  }

  /** `range(difficulty * 4)`: four rounds per difficulty level, none for a difficulty below 1. */
  function Rounds(difficulty: int): nat
  {
    if difficulty > 0 then 4 * difficulty else 0
  }

  /** The `"EC:{difficulty}:"` marker that opens the error-correction part of a proof. */
  function Marker(difficulty: int): string
  {
    "EC:" + IntToString(difficulty) + ":"
  }

  /**
   * `verify(proof, difficulty)`: the proof must split into at least three colon-separated parts
   * and contain the marker for `difficulty`. Fewer than two colons (fewer than three parts) is
   * always a rejection, and the hash part is never examined.
   */
  function Verify(proof: string, difficulty: int): (r: bool)
    ensures r <==> Count(proof, ':') >= 2 && Contains(proof, Marker(difficulty))
    ensures |Split(proof, ':')| < 3 ==> !r
  {
    SplitCount(proof, ':');
    if |Split(proof, ':')| < 3 then false else Contains(proof, Marker(difficulty))
  }

  /** `str(n)` never contains a colon. */
  lemma {:induction false} DecimalHasNoColon(n: nat)
    ensures Count(NatToDecimal(n), ':') == 0
    decreases n
  {
    if n >= 10 {
      DecimalHasNoColon(n / 10);
      CountAppend(NatToDecimal(n / 10), [DecimalDigits[n % 10]], ':');
    }
  }

  lemma MarkerColons(difficulty: int)
    ensures Count(Marker(difficulty), ':') == 2
  {
    var digits := IntToString(difficulty);
    if difficulty < 0 {
      DecimalHasNoColon(-difficulty);
      CountAppend("-", NatToDecimal(-difficulty), ':');
    } else {
      DecimalHasNoColon(difficulty);
    }
    CountAppend("EC:", digits, ':');
    CountAppend("EC:" + digits, ":", ':');
  }

  /**
   * Round trip: every text of the shape `_generate_pqec_proof` produces for a difficulty, a hash,
   * a colon, the marker and any tail, is accepted by `verify` for that difficulty.
   */
  lemma ProofShapeVerifies(proofData: string, difficulty: int, tail: string)
    ensures Verify(proofData + ":" + (Marker(difficulty) + tail), difficulty)
  {
    var marker := Marker(difficulty);
    var proof := proofData + ":" + (marker + tail);
    assert proof == (proofData + ":") + marker + tail;
    MarkerColons(difficulty);
    CountAppend(proofData, ":", ':');
    CountAppend(marker, tail, ':');
    CountAppend(proofData + ":", marker + tail, ':');
    ContainsMiddle(proofData + ":", marker, tail);
  }

  /**
   * `verify` looks for the marker only: the bare marker, with no hash and no corrections, is a
   * valid proof for its difficulty.
   */
  lemma BareMarkerVerifies(difficulty: int)
    ensures Verify(Marker(difficulty), difficulty)
  {
    MarkerColons(difficulty);
    ContainsMiddle("", Marker(difficulty), "");
    assert "" + Marker(difficulty) + "" == Marker(difficulty);
  }

  /** The text `_generate_pqec_proof` hashes: `f"{data}:{time.time()}:{random.random()}"`. */
  function ProofBase(c: Crypto, data: Json, now: real, randomValue: real): string
  {
    c.pyStr(data) + ":" + c.pyStr(Float(now)) + ":" + c.pyStr(Float(randomValue))
  }

  /**
   * The loop of `_generate_pqec_proof`: `rounds` corrections drawn one after another and appended
   * to the text built so far.
   */
  method AppendCorrections(start: string, draw: nat -> (nat, nat), rounds: nat) returns (text: string)
    requires ValidDraws(draw)
    ensures text == start + Corrections(draw, rounds)
  {
    text := start;
    var k := 0;
    while k < rounds
      invariant 0 <= k <= rounds
      invariant text == start + Corrections(draw, k)
    {
      var next := Correction(draw(k).0, draw(k).1);
      assert Corrections(draw, k + 1) == Corrections(draw, k) + next;
      text := text + next;
      k := k + 1;
    }
  }

  /**
   * `_generate_pqec_proof`: the hex digest of the base text, a colon, the marker and
   * `4 * difficulty` drawn corrections. The proof has exactly that shape, its tail has no colon,
   * and `verify` accepts it for the same difficulty.
   */
  method GeneratePqecProof(c: Crypto, data: Json, now: real, randomValue: real, difficulty: int,
                           draw: nat -> (nat, nat)) returns (proof: string)
    requires ValidDraws(draw)
    ensures proof == HexDigest(c, ProofBase(c, data, now, randomValue)) + ":"
                     + (Marker(difficulty) + Corrections(draw, Rounds(difficulty)))
    ensures Verify(proof, difficulty)
  {
    var proofData := HexDigest(c, ProofBase(c, data, now, randomValue));
    var errorCorrection := AppendCorrections(Marker(difficulty), draw, Rounds(difficulty));
    proof := proofData + ":" + errorCorrection;
    ProofShapeVerifies(proofData, difficulty, Corrections(draw, Rounds(difficulty)));
  }

  /** What `PQECConsensus.mine` returns. */
  datatype MineResult = MineResult(proof: string, codeType: string, difficulty: int, miningTime: real)

  /**
   * `PQECConsensus.mine`: both proof counters go up by one, so a consensus whose counters agree
   * keeps them equal; the elapsed time is added; the code type is one of the three codes; the
   * proof verifies for the difficulty asked; the engine's own difficulty is untouched.
   */
  method Mine(c: Crypto, engine: Consensus, data: Json, difficulty: int, codePick: nat, startTime: real,
              proofTime: real, randomValue: real, endTime: real, draw: nat -> (nat, nat))
    returns (next: Consensus, result: MineResult)
    requires codePick < 3 && ValidDraws(draw)
    ensures next.totalProofs == engine.totalProofs + 1 && next.successfulProofs == engine.successfulProofs + 1
    ensures engine.totalProofs == engine.successfulProofs ==> next.totalProofs == next.successfulProofs
    ensures next.totalTime == engine.totalTime + (endTime - startTime) && next.difficulty == engine.difficulty
    ensures result.codeType in CodeTypes && result.difficulty == difficulty
    ensures result.miningTime == endTime - startTime
    ensures Verify(result.proof, difficulty)
  {
    var proof := GeneratePqecProof(c, data, proofTime, randomValue, difficulty, draw);
    var elapsed := endTime - startTime;
    next := engine.(totalProofs := engine.totalProofs + 1,
                    successfulProofs := engine.successfulProofs + 1,
                    totalTime := engine.totalTime + elapsed);
    result := MineResult(proof, CodeTypes[codePick], difficulty, elapsed);
  }

  // ---------------------------------------------------------------- handle_action

  const ApiVersion := "1.0"

  /** The envelope every answer carries: `{code, message, data, timestamp, version}`. */
  datatype Response = Response(code: int, message: string, data: Json, timestamp: int, version: string)

  function SuccessResponse(data: Json, now: int): Response
  {
    Response(0, "success", data, now, ApiVersion)
  }

  function ErrorResponse(code: int, message: string, now: int): Response
  {
    Response(code, message, Obj(map[]), now, ApiVersion)
  }

  /** What `handle_action` does: answer, or raise an exception that the route turns into code 3. */
  datatype Outcome = Answer(response: Response) | Raises(error: string)

  /** The route's `except` branch: an exception becomes an error response with code 3. */
  function RouteResponse(o: Outcome, now: int): (r: Response)
    ensures o.Raises? ==> r.code == 3
    ensures o.Answer? ==> r == o.response
  {
    match o
    case Answer(response) => response
    case Raises(e) => ErrorResponse(3, e, now)
  }

  /** The block as the dictionary the service returns. */
  function BlockJson(b: Block): Json
  {
    Obj(map[
      "index" := Int(b.index),
      "timestamp" := Str(b.timestamp),
      "data" := b.data,
      "previous_hash" := Str(b.previousHash),
      "quantum_signature" := Str(b.quantumSignature),
      "quantum_proof" := Str(b.quantumProof),
      "hash" := Str(b.hash)])
  }

  function ChainJson(chain: seq<Block>): (r: seq<Json>)
    ensures |r| == |chain|
  {
    seq(|chain|, i requires 0 <= i < |chain| => BlockJson(chain[i]))
  }

  /** Every action name `handle_action` dispatches on. */
  const KnownActions: seq<string> := [
    "get_blockchain", "get_blocks", "get_block", "get_latest_block", "add_block", "validate_chain",
    "get_transactions", "pqec_mine", "pqec_verify", "pqec_status", "pqec_stats", "pqec_codes",
    "pqec_simulate_error", "quantum_generate_signature", "quantum_hash", "quantum_random", "search"]

  /** `params.get(key, default)`; a `params` that is not a dictionary has no `get`. */
  function Param(params: Json, key: string, default: Json): Json
    requires params.Obj?
  {
    if key in params.fields then params.fields[key] else default
  }

  /**
   * `get_block`: the index must satisfy `0 <= index < len(chain)` (a boolean counts as 0 or 1);
   * otherwise the answer is error code 2. A float index in range passes the comparison but cannot
   * index a list, and a non-numeric index cannot be compared: both raise.
   */
  function GetBlock(chain: seq<Block>, index: Json, now: int): (r: Outcome)
    ensures index.Int? && 0 <= index.i < |chain| ==> r == Answer(SuccessResponse(BlockJson(chain[index.i]), now))
    ensures index.Int? && !(0 <= index.i < |chain|) ==> r.Answer? && r.response.code == 2
    ensures (index.Str? || index.Null? || index.Arr? || index.Obj?) ==> r.Raises?
    ensures r.Answer? ==> r.response.code in {0, 2} && r.response.version == ApiVersion
  {
    match index
    case Int(i) =>
      if 0 <= i < |chain| then Answer(SuccessResponse(BlockJson(chain[i]), now))
      else Answer(ErrorResponse(2, "Block not found", now))
    case Bool(b) =>
      var i := if b then 1 else 0;
      if i < |chain| then Answer(SuccessResponse(BlockJson(chain[i]), now))
      else Answer(ErrorResponse(2, "Block not found", now))
    case Float(f) =>
      if 0.0 <= f < |chain| as real then Raises("list indices must be integers or slices, not float")
      else Answer(ErrorResponse(2, "Block not found", now))
    case _ => Raises("'<=' not supported")
  }

  /** The service's state: its chain and its consensus engine. */
  datatype Service = Service(chain: seq<Block>, engine: Consensus)

  /**
   * `handle_action` for the read-only actions: `get_block` answers with the block or error code 2
   * as `GetBlock` says (the index defaults to 0), `validate_chain` reports `is_valid`,
   * `get_latest_block` the last block, `pqec_verify` the verdict of `verify`, and any name outside
   * the dispatch list gets error code 1 naming the action. `None` stands for the actions that
   * change state or draw random numbers, which this function does not cover.
   */
  function HandleAction(c: Crypto, s: Service, action: string, params: Json, now: int): (r: Option<Outcome>)
    ensures action !in KnownActions ==> r == Some(Answer(ErrorResponse(1, "Unknown action: " + action, now)))
    ensures action == "get_block" && params.Obj? ==>
      r == Some(GetBlock(s.chain, if "index" in params.fields then params.fields["index"] else Int(0), now))
    ensures action == "get_block" && params.Obj? && "index" !in params.fields && |s.chain| > 0 ==>
      r == Some(Answer(SuccessResponse(BlockJson(s.chain[0]), now)))
    ensures action == "validate_chain" ==>
      r == Some(Answer(SuccessResponse(Obj(map["valid" := Bool(Linked(s.chain))]), now)))
    ensures (action == "pqec_verify" && params.Obj? && Param(params, "proof", Str("")).Str?
             && Param(params, "difficulty", Int(3)).Int?) ==>
      r == Some(Answer(SuccessResponse(Obj(map["valid" := Bool(Verify(Param(params, "proof", Str("")).s,
                                                                        Param(params, "difficulty", Int(3)).i))]), now)))
    ensures r.None? ==> action in KnownActions
    ensures action in KnownActions && r.Some? && r.value.Answer? ==> r.value.response.code in {0, 2}
    ensures r.Some? && r.value.Answer? ==> r.value.response.version == ApiVersion
  {
    if action !in KnownActions then Some(Answer(ErrorResponse(1, "Unknown action: " + action, now)))
    else if action == "get_blockchain" then
      Some(Answer(SuccessResponse(Obj(map[
        "chain" := Arr(ChainJson(s.chain)), "length" := Int(|s.chain|), "qec_enabled" := Bool(true)]), now)))
    else if action == "get_block" then
      if !params.Obj? then Some(Raises("'params' has no attribute 'get'"))
      else Some(GetBlock(s.chain, Param(params, "index", Int(0)), now))
    else if action == "get_latest_block" then
      if |s.chain| == 0 then Some(Raises("list index out of range"))
      else Some(Answer(SuccessResponse(BlockJson(Last(s.chain)), now)))
    else if action == "validate_chain" then
      Some(Answer(SuccessResponse(Obj(map["valid" := Bool(Linked(s.chain))]), now)))
    else if action == "pqec_verify" then
      if !params.Obj? then Some(Raises("'params' has no attribute 'get'"))
      else
        var proof := Param(params, "proof", Str(""));
        var difficulty := Param(params, "difficulty", Int(3));
        if !proof.Str? then Some(Raises("'proof' has no attribute 'split'"))
        else
          var marker := "EC:" + (if difficulty.Int? then IntToString(difficulty.i) else c.pyStr(difficulty)) + ":";
          var valid := |Split(proof.s, ':')| >= 3 && Contains(proof.s, marker);
          Some(Answer(SuccessResponse(Obj(map["valid" := Bool(valid)]), now)))
    else if action == "pqec_status" then
      Some(Answer(SuccessResponse(Obj(map[
        "difficulty" := Int(s.engine.difficulty), "total_blocks" := Int(|s.chain|),
        "qec_enabled" := Bool(true), "consensus" := Str("PQEC")]), now)))
    else None
  }

  /** `get_block` in full: a block for every index in range, error code 2 for every integer outside. */
  lemma GetBlockCodes(c: Crypto, s: Service, i: int, now: int)
    ensures var r := HandleAction(c, s, "get_block", Obj(map["index" := Int(i)]), now);
      && r.Some? && r.value.Answer?
      && (0 <= i < |s.chain| <==> r.value.response.code == 0)
      && (0 <= i < |s.chain| ==> r.value.response.data == BlockJson(s.chain[i]))
      && (!(0 <= i < |s.chain|) <==> r.value.response.code == 2)
  {
    var params := Obj(map["index" := Int(i)]);
    assert "index" in params.fields && params.fields["index"] == Int(i);
  }
}
