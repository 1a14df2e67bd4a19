/**
 * The Qiskit-flavoured chain of quantum_blockchain.py: chunked random bit generation, blocks
 * hashed with `QuantumHash.quantum_hash`, and a chain validated by hash and link only, with no
 * proof of work.
 *
 * Each circuit measurement is the oracle `measure(k, size)`: the bit string read from the `k`-th
 * circuit of `size` qubits. `quantum_hash` is the `quantumHash` oracle of the bundle, a fixed
 * function. The last section models it as Python runs it, with a fresh measurement sample on every
 * call, and shows that a block can then fail the check against the hash it was sealed with.
 */
module QuantumChain {
  import opened Text
  import opened Radix
  import opened Oracles

  // ---------------------------------------------------------------- generate_random_bits

  /** The most qubits one circuit is given. */
  const MaxQubitsPerChunk := 16

  function Sum(s: seq<nat>): nat
  {
    if |s| == 0 then 0 else Sum(s[..|s| - 1]) + s[|s| - 1]
  }

  /** The chunks in order, each measurement zero-filled on the left to its chunk size. */
  function Chunks(measure: (nat, nat) -> string, sizes: seq<nat>): string
  {
    if |sizes| == 0 then ""
    else Chunks(measure, sizes[..|sizes| - 1]) + ZFill(measure(|sizes| - 1, sizes[|sizes| - 1]), sizes[|sizes| - 1])
  }

  /** A measurement of `size` qubits never has more than `size` characters. */
  ghost predicate MeasuresWithinSize(measure: (nat, nat) -> string)
  {
    forall k: nat, size: nat :: |measure(k, size)| <= size
  }

  lemma {:induction false} ChunksLength(measure: (nat, nat) -> string, sizes: seq<nat>)
    requires MeasuresWithinSize(measure)
    ensures |Chunks(measure, sizes)| == Sum(sizes)
    decreases |sizes|
  {
    if |sizes| > 0 {
      ChunksLength(measure, sizes[..|sizes| - 1]);
      assert |measure(|sizes| - 1, sizes[|sizes| - 1])| <= sizes[|sizes| - 1];
    }
  }

  /**
   * `QuantumRandom.generate_random_bits`: circuits of `min(remaining, 16)` qubits are measured
   * until `num_bits` bits are collected. Every chunk has between 1 and 16 bits, all but the last
   * have exactly 16, the sizes add up to `num_bits` (nothing for a count of 0 or less), and the
   * result is the zero-filled measurements in order, one character per requested bit.
   */
  method GenerateRandomBits(measure: (nat, nat) -> string, numBits: int) returns (bits: string, sizes: seq<nat>)
    requires MeasuresWithinSize(measure)
    ensures forall i :: 0 <= i < |sizes| ==> 1 <= sizes[i] <= MaxQubitsPerChunk
    ensures forall i :: 0 <= i < |sizes| - 1 ==> sizes[i] == MaxQubitsPerChunk
    ensures Sum(sizes) == if numBits > 0 then numBits else 0
    ensures bits == Chunks(measure, sizes)
    ensures |bits| == if numBits > 0 then numBits else 0
  {
    bits := "";
    sizes := [];
    var remaining := numBits;
    while remaining > 0
      invariant forall i :: 0 <= i < |sizes| ==> 1 <= sizes[i] <= MaxQubitsPerChunk
      invariant forall i :: 0 <= i < |sizes| - 1 ==> sizes[i] == MaxQubitsPerChunk
      invariant |sizes| > 0 && sizes[|sizes| - 1] < MaxQubitsPerChunk ==> remaining <= 0
      invariant remaining > 0 ==> Sum(sizes) + remaining == numBits
      invariant remaining <= 0 ==> Sum(sizes) == if numBits > 0 then numBits else 0
      invariant bits == Chunks(measure, sizes)
      decreases remaining
    {
      var chunkSize := if remaining < MaxQubitsPerChunk then remaining else MaxQubitsPerChunk;
      var chunk := ZFill(measure(|sizes|, chunkSize), chunkSize);
      bits := bits + chunk;
      assert (sizes + [chunkSize])[..|sizes|] == sizes;
      sizes := sizes + [chunkSize];
      remaining := remaining - chunkSize;
    }
    ChunksLength(measure, sizes);
  }

  // ---------------------------------------------------------------- Block

  /** A block of the Qiskit chain, with the fields `to_dict` writes. */
  datatype Block = Block(
    index: int,
    timestamp: real,
    data: Json,
    previousHash: string,
    quantumSignature: string,
    hash: string)

  /** The sorted-key JSON of every field but the hash, the input `_calculate_hash` hashes. */
  function Document(c: Crypto, b: Block): string
  {
    c.dumps(Obj(map[
      "index" := Int(b.index),
      "timestamp" := Float(b.timestamp),
      "data" := b.data,
      "previous_hash" := Str(b.previousHash),
      "quantum_signature" := Str(b.quantumSignature)]))
  }

  /**
   * `Block._calculate_hash`: `quantum_hash` of the block's document, with `quantum_hash` a fixed
   * function of its input, as it would be with a seeded simulator.
   */
  function CalculateHash(c: Crypto, b: Block): string
  {
    c.quantumHash(Document(c, b))
  }

  predicate Sealed(c: Crypto, b: Block)
  {
    b.hash == CalculateHash(c, b)
  }

  /**
   * `Block(...)`: an empty or missing signature is replaced by 128 fresh random bits, and the hash
   * is computed last, so a new block is sealed.
   */
  function NewBlock(c: Crypto, index: int, timestamp: real, data: Json, previousHash: string,
                    signature: string, randomBits: string): (b: Block)
    ensures Sealed(c, b)
    ensures b.quantumSignature == if signature != "" then signature else randomBits
    ensures b.index == index && b.previousHash == previousHash && b.data == data && b.timestamp == timestamp
  {
    var unsealed := Block(index, timestamp, data, previousHash, if signature != "" then signature else randomBits, "");
    unsealed.(hash := CalculateHash(c, unsealed))
  }

  // ---------------------------------------------------------------- QuantumBlockchain

  /** Block `i` is sealed and linked to block `i - 1`. */
  predicate ValidAt(c: Crypto, chain: seq<Block>, i: int)
    requires 1 <= i < |chain|
  {
    Sealed(c, chain[i]) && chain[i].previousHash == chain[i - 1].hash
  }

  /** Every block after the first is sealed and linked; there is no proof-of-work test. */
  predicate ChainValid(c: Crypto, chain: seq<Block>)
  {
    forall i :: 1 <= i < |chain| ==> ValidAt(c, chain, i)
  }

  const GenesisMessage := "\U{91cf}\U{5b50}\U{533a}\U{5757}\U{94fe}\U{7684}\U{521b}\U{4e16}\U{533a}\U{5757}"

  /**
   * `_create_genesis_block`: index 0, 64 '0's as previous hash, the random bits as signature and
   * their hex rendering recorded as the block's "quantum_state".
   */
  function Genesis(c: Crypto, signatureBits: string, timestamp: real): (r: seq<Block>)
    requires IsBinary(signatureBits) && |signatureBits| > 0
    ensures |r| == 1 && r[0].index == 0 && r[0].previousHash == Zeros(64)
    ensures Sealed(c, r[0]) && r[0].quantumSignature == signatureBits
    ensures r[0].data.Obj? && "quantum_state" in r[0].data.fields
    ensures r[0].data.fields["quantum_state"].Str?
      && HexValue(r[0].data.fields["quantum_state"].s) == BinValue(signatureBits)
    ensures ChainValid(c, r)
  {
    var data := Obj(map["message" := Str(GenesisMessage), "quantum_state" := Str(BitstringToHex(signatureBits))]);
    [NewBlock(c, 0, timestamp, data, Zeros(64), signatureBits, "")]
  }

  /**
   * `QuantumBlockchain.add_block`: one block is appended with index equal to the old length, the
   * old last hash as link and a fresh random signature; the old blocks are kept.
   */
  function AddBlock(c: Crypto, chain: seq<Block>, data: Json, timestamp: real, randomBits: string): (r: seq<Block>)
    requires |chain| > 0
    ensures |r| == |chain| + 1 && r[..|chain|] == chain
    ensures Last(r).index == |chain| && Last(r).previousHash == Last(chain).hash
    ensures Last(r).data == data && Last(r).quantumSignature == randomBits && Sealed(c, Last(r))
  {
    chain + [NewBlock(c, |chain|, timestamp, data, Last(chain).hash, "", randomBits)]
  }

  /** `add_block` keeps a valid chain valid. */
  lemma AddBlockPreservesValidity(c: Crypto, chain: seq<Block>, data: Json, timestamp: real, randomBits: string)
    requires |chain| > 0 && ChainValid(c, chain)
    ensures ChainValid(c, AddBlock(c, chain, data, timestamp, randomBits))
  {
    var r := AddBlock(c, chain, data, timestamp, randomBits);
    forall i | 1 <= i < |r|
      ensures ValidAt(c, r, i)
    {
      if i < |chain| {
        assert r[i] == chain[i] && r[i - 1] == chain[i - 1];
        assert ValidAt(c, chain, i);
      } else {
        assert r[i - 1] == chain[|chain| - 1];
      }
    }
  }

  /** `QuantumBlockchain.is_chain_valid`: the loop over blocks 1.. that stops at the first failure. */
  method IsChainValid(c: Crypto, chain: seq<Block>) returns (valid: bool)
    ensures valid <==> ChainValid(c, chain)
  {
    var i := 1;
    while i < |chain|
      invariant 1 <= i
      invariant forall j :: 1 <= j < i && j < |chain| ==> ValidAt(c, chain, j)
    {
      if chain[i].hash != CalculateHash(c, chain[i]) {
        assert !ValidAt(c, chain, i);
        return false;
      }
      if chain[i].previousHash != chain[i - 1].hash {
        assert !ValidAt(c, chain, i);
        return false;
      }
      i := i + 1;
    }
    return true;
  }

  // ---------------------------------------------------------------- quantum_hash as sampled

  /**
   * One run of `quantum_hash(data)`: the SHA-256 hex digest of the data followed by the
   * `probability_string` rendered from the 1024-shot counts, hashed again and cut to 64
   * characters. The simulator is not seeded, so the probability string is a fresh sample on every
   * run and is a parameter here.
   */
  function SampledQuantumHash(c: Crypto, data: string, probabilities: string): string
  {
    PyTake(HexDigest(c, HexDigest(c, data) + probabilities), 64)
  }

  /** `Block(...)` sealed on a run whose measurements rendered `probabilities`. */
  function NewBlockSampled(c: Crypto, index: int, timestamp: real, data: Json, previousHash: string,
                           signature: string, randomBits: string, probabilities: string): (b: Block)
    ensures b.hash == SampledQuantumHash(c, Document(c, b), probabilities)
    ensures b.quantumSignature == if signature != "" then signature else randomBits
    ensures b.index == index && b.previousHash == previousHash && b.data == data && b.timestamp == timestamp
  {
    var unsealed := Block(index, timestamp, data, previousHash, if signature != "" then signature else randomBits, "");
    unsealed.(hash := SampledQuantumHash(c, Document(c, unsealed), probabilities))
  }

  /** `add_block` as written: the new block is sealed on the run that drew `probabilities`. */
  function AddBlockSampled(c: Crypto, chain: seq<Block>, data: Json, timestamp: real, randomBits: string,
                           probabilities: string): (r: seq<Block>)
    requires |chain| > 0
    ensures |r| == |chain| + 1 && r[..|chain|] == chain
    ensures Last(r).index == |chain| && Last(r).previousHash == Last(chain).hash && Last(r).data == data
    ensures Last(r).hash == SampledQuantumHash(c, Document(c, Last(r)), probabilities)
  {
    chain + [NewBlockSampled(c, |chain|, timestamp, data, Last(chain).hash, "", randomBits, probabilities)]
  }

  /** Block `i` matches the hash of the run that rechecks it, which drew `draws(i)`, and is linked. */
  predicate ValidAtSampled(c: Crypto, chain: seq<Block>, i: int, draws: int -> string)
    requires 1 <= i < |chain|
  {
    chain[i].hash == SampledQuantumHash(c, Document(c, chain[i]), draws(i))
    && chain[i].previousHash == chain[i - 1].hash
  }

  /** `is_chain_valid` as written, where the recomputation for block `i` draws `draws(i)`. */
  predicate ChainValidSampled(c: Crypto, chain: seq<Block>, draws: int -> string)
  {
    forall i :: 1 <= i < |chain| ==> ValidAtSampled(c, chain, i, draws)
  }

  /**
   * `is_chain_valid` as written: every block after the first is rehashed on a fresh run, and the
   * loop stops at the first block whose stored hash differs from the rerun's or whose link is wrong.
   */
  method IsChainValidAsWritten(c: Crypto, chain: seq<Block>, draws: int -> string) returns (valid: bool)
    ensures valid <==> ChainValidSampled(c, chain, draws)
  {
    var i := 1;
    while i < |chain|
      invariant 1 <= i
      invariant forall j :: 1 <= j < i && j < |chain| ==> ValidAtSampled(c, chain, j, draws)
    {
      if chain[i].hash != SampledQuantumHash(c, Document(c, chain[i]), draws(i)) {
        assert !ValidAtSampled(c, chain, i, draws);
        return false;
      }
      if chain[i].previousHash != chain[i - 1].hash {
        assert !ValidAtSampled(c, chain, i, draws);
        return false;
      }
      i := i + 1;
    }
    return true;
  }

  /**
   * On a valid chain, the block `add_block` just sealed passes the recheck exactly when the
   * rerun's hash equals the hash of the run that sealed it.
   */
  lemma {:induction false} AddedBlockPassesIffRunsAgree(c: Crypto, chain: seq<Block>, data: Json, timestamp: real,
                                                        randomBits: string, sealing: string, draws: int -> string)
    requires |chain| > 0 && ChainValidSampled(c, chain, draws)
    ensures var r := AddBlockSampled(c, chain, data, timestamp, randomBits, sealing);
      ChainValidSampled(c, r, draws)
      <==> SampledQuantumHash(c, Document(c, Last(r)), draws(|chain|))
           == SampledQuantumHash(c, Document(c, Last(r)), sealing)
  {
    var r := AddBlockSampled(c, chain, data, timestamp, randomBits, sealing);
    forall i | 1 <= i < |chain|
      ensures ValidAtSampled(c, r, i, draws) == ValidAtSampled(c, chain, i, draws)
    {
      assert r[i] == chain[i] && r[i - 1] == chain[i - 1];
    }
    assert r[|chain| - 1] == Last(chain);
    if SampledQuantumHash(c, Document(c, Last(r)), draws(|chain|)) == SampledQuantumHash(c, Document(c, Last(r)), sealing) {
      forall i | 1 <= i < |r|
        ensures ValidAtSampled(c, r, i, draws)
      {
        if i < |chain| {
          assert ValidAtSampled(c, chain, i, draws);
        }
      }
    } else {
      assert !ValidAtSampled(c, r, |chain|, draws);
    }
  }

  /** SHA-256 replaced by the identity and every document by "", so a run's hash is its sample. */
  function SampleCrypto(): Crypto
  {
    Crypto((s: string) => s, (s: string) => [], (j: Json) => "", (j: Json) => "", (s: string) => s)
  }

  /**
   * Two runs with different counts make `is_chain_valid` refuse the block `add_block` has just
   * sealed: sealed on a run rendering "00000001", rechecked on one rendering "00000010".
   */
  lemma FreshSampleRejectsSealedBlock()
    ensures var c := SampleCrypto();
      !ChainValidSampled(c, AddBlockSampled(c, [Block(0, 0.0, Null, "", "", "")], Null, 0.0, "1", "00000001"),
                         (i: int) => "00000010")
  {
    var c := SampleCrypto();
    var r := AddBlockSampled(c, [Block(0, 0.0, Null, "", "", "")], Null, 0.0, "1", "00000001");
    assert SampledQuantumHash(c, Document(c, r[1]), "00000001") == "00000001";
    assert SampledQuantumHash(c, Document(c, r[1]), "00000010") == "00000010";
    assert "00000001"[6] != "00000010"[6];
    assert !ValidAtSampled(c, r, 1, (i: int) => "00000010");
  }

  /**
   * When each run's sample is a fixed function `probabilities` of the hashed text, as with a
   * simulator seeded from the data, the check as written is exactly `ChainValid` over the
   * deterministic `quantum_hash` the rest of this module uses.
   */
  lemma SeededRunsAgree(c: Crypto, chain: seq<Block>, probabilities: string -> string)
    requires forall s :: c.quantumHash(s) == SampledQuantumHash(c, s, probabilities(s))
    ensures ChainValidSampled(c, chain, (i: int) => if 0 <= i < |chain| then probabilities(Document(c, chain[i])) else "")
            <==> ChainValid(c, chain)
  {
    var draws := (i: int) => if 0 <= i < |chain| then probabilities(Document(c, chain[i])) else "";
    forall i | 1 <= i < |chain|
      ensures ValidAtSampled(c, chain, i, draws) == ValidAt(c, chain, i)
    {
      assert c.quantumHash(Document(c, chain[i])) == SampledQuantumHash(c, Document(c, chain[i]), draws(i));
    }
  }
}
