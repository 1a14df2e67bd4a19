/**
 * The chain behind the Flask host quantum_blockchain_qsharp/host/app.py, on the path taken when
 * `qsharp` is not installed. Blocks are dictionaries; the stored timestamp is `str(time.time())`,
 * which `float()` reads back exactly, so it is kept here as the number it denotes.
 *
 * `add_block` reads the clock twice: once for the stored timestamp and once for the hash. Both
 * readings are parameters. `AddBlockAsWritten` keeps that behaviour; `AddBlock` is the
 * single-reading version the validity check evidently expects.
 */
module HostChain {
  import opened Wrappers
  import opened Text
  import opened Radix
  import opened Oracles

  datatype Block = Block(
    index: int,
    timestamp: real,
    data: Json,
    previousHash: string,
    quantumSignature: string,
    hash: string)

  /**
   * `calculate_hash` without Q#: the sorted-key JSON `s` of the five fields, then
   * `sha256(s + sha256(s)[:16])`.
   */
  function CalculateHash(c: Crypto, index: int, timestamp: real, data: Json, previousHash: string,
                         signature: string): string
  {
    HybridHash(c, c.dumps(Obj(map[
      "index" := Int(index),
      "timestamp" := Float(timestamp),
      "data" := data,
      "previous_hash" := Str(previousHash),
      "quantum_signature" := Str(signature)])))
  }

  /** `is_valid(new_block, previous_block)`: linked to the predecessor and hashed correctly. */
  predicate IsValid(c: Crypto, block: Block, previous: Block)
  {
    block.previousHash == previous.hash
    && block.hash == CalculateHash(c, block.index, block.timestamp, block.data, block.previousHash, block.quantumSignature)
  }

  /** `is_chain_valid`: every adjacent pair passes `is_valid`; the genesis block is never checked. */
  predicate ChainValid(c: Crypto, chain: seq<Block>)
  {
    forall i :: 1 <= i < |chain| ==> IsValid(c, chain[i], chain[i - 1])
  }

  /** `is_chain_valid` as written: the loop that stops at the first failing pair. */
  method IsChainValid(c: Crypto, chain: seq<Block>) returns (valid: bool)
    ensures valid <==> ChainValid(c, chain)
  {
    var i := 1;
    while i < |chain|
      invariant 1 <= i
      invariant forall j :: 1 <= j < i && j < |chain| ==> IsValid(c, chain[j], chain[j - 1])
    {
      if !IsValid(c, chain[i], chain[i - 1]) {
        return false;
      }
      i := i + 1;
    }
    return true;
  }

  /**
   * `_python_quantum_signature(num_bits)` for the `num_bits` random binary digits drawn:
   * `hex(int(bits, 2))[2:].zfill(num_bits // 4)`. For a whole number of nibbles the result is
   * exactly `num_bits / 4` lower-case hex digits with the value of the bits.
   */
  function PythonQuantumSignature(bits: string): (r: string)
    requires IsBinary(bits) && |bits| > 0
    ensures |bits| % 4 == 0 ==> |r| == |bits| / 4 && IsLowerHex(r) && HexValue(r) == BinValue(bits)
  {
    if |bits| % 4 == 0 then
      BinValueBound(bits);
      PowTwoFour(|bits| / 4);
      HexWidthExact(BinValue(bits), |bits| / 4);
      HexWidth(BinValue(bits), |bits| / 4)
    else HexWidth(BinValue(bits), |bits| / 4)
  }

  const GenesisMessage := "\U{91cf}\U{5b50}\U{533a}\U{5757}\U{94fe}\U{521b}\U{4e16}\U{533a}\U{5757}"

  /**
   * `create_genesis_block`: index 0, 64 '0's as previous hash, the stored data naming the QTC
   * token, but the hash computed over the different data `{"message": "Genesis"}` and a second
   * clock reading. The genesis block is exempt from every check, so the chain is valid.
   */
  function Genesis(c: Crypto, signatureBits: string, storedTime: real, hashTime: real): (r: seq<Block>)
    requires IsBinary(signatureBits) && |signatureBits| > 0
    ensures |r| == 1 && r[0].index == 0 && r[0].previousHash == Zeros(64)
    ensures r[0].data == Obj(map["message" := Str(GenesisMessage), "token" := Str("QTC")])
    ensures r[0].hash == CalculateHash(c, 0, hashTime, Obj(map["message" := Str("Genesis")]), Zeros(64), r[0].quantumSignature)
    ensures ChainValid(c, r)
  {
    var signature := PythonQuantumSignature(signatureBits);
    var data := Obj(map["message" := Str(GenesisMessage), "token" := Str("QTC")]);
    var hash := CalculateHash(c, 0, hashTime, Obj(map["message" := Str("Genesis")]), Zeros(64), signature);
    [Block(0, storedTime, data, Zeros(64), signature, hash)]
  }

  /** The block `add_block` builds after `previous`, stamped `storedTime` but hashed at `hashTime`. */
  function Candidate(c: Crypto, chain: seq<Block>, data: Json, signature: string, storedTime: real, hashTime: real): Block
    requires |chain| > 0
  {
    Block(|chain|, storedTime, data, Last(chain).hash, signature,
          CalculateHash(c, |chain|, hashTime, data, Last(chain).hash, signature))
  }

  /**
   * `add_block` as written: the candidate has index `len(chain)` and links to the last hash, and
   * is appended exactly when `is_valid` accepts it, which happens exactly when the hash over the
   * hashing time equals the hash over the stored time; otherwise `None` and the chain is unchanged.
   * Equal clock readings are always accepted.
   */
  function AddBlockAsWritten(c: Crypto, chain: seq<Block>, data: Json, signatureBits: string,
                             storedTime: real, hashTime: real): (r: (Option<Block>, seq<Block>))
    requires |chain| > 0
    requires IsBinary(signatureBits) && |signatureBits| > 0
    ensures var sig := PythonQuantumSignature(signatureBits);
      (r.0.Some? <==> (CalculateHash(c, |chain|, hashTime, data, Last(chain).hash, sig)
                       == CalculateHash(c, |chain|, storedTime, data, Last(chain).hash, sig)))
    ensures r.0.None? ==> r.1 == chain
    ensures r.0.Some? ==> r.1 == chain + [r.0.value] && IsValid(c, r.0.value, Last(chain))
    ensures r.0.Some? ==> r.0.value.index == |chain| && r.0.value.previousHash == Last(chain).hash
    ensures storedTime == hashTime ==> r.0.Some?
  {
    var block := Candidate(c, chain, data, PythonQuantumSignature(signatureBits), storedTime, hashTime);
    if IsValid(c, block, Last(chain)) then (Some(block), chain + [block]) else (None, chain)
  }

  /** A serialisation that only tells timestamp 1.0 from everything else, and the identity as hash. */
  function TimestampCrypto(): Crypto
  {
    Crypto(
      (s: string) => s,
      (s: string) => [],
      (j: Json) => if j.Obj? && "timestamp" in j.fields && j.fields["timestamp"] == Float(1.0) then "one" else "two",
      (j: Json) => "",
      (s: string) => s)
  }

  /**
   * Two different clock readings make `add_block` refuse the block: with a serialisation that
   * records the timestamp and a hash that keeps its input apart, a block stamped at 1.0 and hashed
   * at 2.0 is rejected, though nothing is wrong with it.
   */
  lemma TwoClocksRejectValidBlock()
    ensures AddBlockAsWritten(TimestampCrypto(), [Block(0, 0.0, Null, "", "", "h")], Null, "0", 1.0, 2.0).0.None?
  {
    var c := TimestampCrypto();
    var sig := PythonQuantumSignature("0");
    var stored := Obj(map[
      "index" := Int(1), "timestamp" := Float(1.0), "data" := Null,
      "previous_hash" := Str("h"), "quantum_signature" := Str(sig)]);
    var hashed := stored.(fields := stored.fields["timestamp" := Float(2.0)]);
    assert c.dumps(stored) == "one";
    assert c.dumps(hashed) == "two";
    assert HybridHash(c, "one") == "oneone";
    assert HybridHash(c, "two") == "twotwo";
    assert CalculateHash(c, 1, 2.0, Null, "h", sig) != CalculateHash(c, 1, 1.0, Null, "h", sig) by {
      assert "twotwo"[0] != "oneone"[0];
    }
  }

  /**
   * `add_block` with one clock reading, used for both the stored timestamp and the hash: the block
   * always passes `is_valid` and is appended, with index `len(chain)` and the last hash as link.
   */
  function AddBlock(c: Crypto, chain: seq<Block>, data: Json, signatureBits: string, now: real): (r: (Block, seq<Block>))
    requires |chain| > 0
    requires IsBinary(signatureBits) && |signatureBits| > 0
    ensures r.1 == chain + [r.0]
    ensures IsValid(c, r.0, Last(chain))
    ensures r.0.index == |chain| && r.0.previousHash == Last(chain).hash && r.0.data == data && r.0.timestamp == now
  {
    var block := Candidate(c, chain, data, PythonQuantumSignature(signatureBits), now, now);
    (block, chain + [block])
  }

  /** A block that passes `is_valid` against the last one can be appended to a valid chain. */
  lemma AppendValid(c: Crypto, chain: seq<Block>, block: Block)
    requires |chain| > 0 && ChainValid(c, chain) && IsValid(c, block, Last(chain))
    ensures ChainValid(c, chain + [block])
  {
    var r := chain + [block];
    forall i | 1 <= i < |r|
      ensures IsValid(c, r[i], r[i - 1])
    {
      if i < |chain| {
        assert r[i] == chain[i] && r[i - 1] == chain[i - 1];
      } else {
        assert r[i] == block && r[i - 1] == Last(chain);
      }
    }
  }

  /** The single-clock `add_block` keeps a valid chain valid. */
  lemma AddBlockPreservesValidity(c: Crypto, chain: seq<Block>, data: Json, signatureBits: string, now: real)
    requires |chain| > 0 && ChainValid(c, chain)
    requires IsBinary(signatureBits) && |signatureBits| > 0
    ensures ChainValid(c, AddBlock(c, chain, data, signatureBits, now).1)
  {
    var (block, r) := AddBlock(c, chain, data, signatureBits, now);
    AppendValid(c, chain, block);
  }

  /** Whatever `add_block` as written decides, a valid chain stays valid. */
  lemma AddBlockAsWrittenPreservesValidity(c: Crypto, chain: seq<Block>, data: Json, signatureBits: string,
                                           storedTime: real, hashTime: real)
    requires |chain| > 0 && ChainValid(c, chain)
    requires IsBinary(signatureBits) && |signatureBits| > 0
    ensures ChainValid(c, AddBlockAsWritten(c, chain, data, signatureBits, storedTime, hashTime).1)
  {
    var (added, r) := AddBlockAsWritten(c, chain, data, signatureBits, storedTime, hashTime);
    if added.Some? {
      AppendValid(c, chain, added.value);
    }
  }
}
