/**
 * The classical fallback branches of qsharp_integration.py, taken when the `qsharp` package is
 * not installed: the nonce search, the hash-based signature, the eavesdropping estimate, the
 * node key packing and the Merkle root.
 */
module QSharpIntegration {
  import opened Wrappers
  import opened Text
  import opened Radix
  import opened Oracles

  // ---------------------------------------------------------------- QuantumMiner.mine

  /** The last nonce the fallback miner tries. */
  const MaxNonce := 1000000

  /** `sha256(f"{block_hash}{nonce}").hexdigest()` */
  function MinerHash(c: Crypto, blockHash: int, nonce: int): string
  {
    HexDigest(c, IntToString(blockHash) + IntToString(nonce))
  }

  /** Nonce `nonce` solves the puzzle: its hash starts with `difficulty` '0's. */
  predicate Hit(c: Crypto, blockHash: int, difficulty: int, nonce: int)
  {
    StartsWith(MinerHash(c, blockHash, nonce), Zeros(difficulty))
  }

  /**
   * `QuantumMiner.mine` without Q#: nonces 0, 1, ..., 1000000 are tried in order. A result of at
   * most 1000000 is the first nonce that hits; 1000001 means none of them did.
   */
  method Mine(c: Crypto, blockHash: int, difficulty: int) returns (nonce: int)
    ensures 0 <= nonce <= MaxNonce + 1
    ensures nonce <= MaxNonce ==> Hit(c, blockHash, difficulty, nonce)
    ensures forall n :: 0 <= n < nonce && n <= MaxNonce ==> !Hit(c, blockHash, difficulty, n)
  {
    nonce := 0;
    while nonce <= MaxNonce
      invariant 0 <= nonce <= MaxNonce + 1
      invariant forall n :: 0 <= n < nonce ==> !Hit(c, blockHash, difficulty, n)
    {
      if Hit(c, blockHash, difficulty, nonce) {
        return;
      }
      nonce := nonce + 1;
    }
  }

  /** A difficulty of 0 or less asks for the empty prefix, so the first nonce already hits. */
  lemma EasyDifficultyHitsAtZero(c: Crypto, blockHash: int, difficulty: int)
    requires difficulty <= 0
    ensures Hit(c, blockHash, difficulty, 0)
  {
    assert Zeros(difficulty) == "";
  }

  /** For non-negative difficulties, hitting is the slice test `hash[:d] == '0' * d` of the ledgers. */
  lemma HitIsMeetsTarget(c: Crypto, blockHash: int, difficulty: int, nonce: int)
    requires difficulty >= 0
    ensures Hit(c, blockHash, difficulty, nonce) <==> MeetsTarget(MinerHash(c, blockHash, nonce), difficulty)
  {
    StartsWithZerosIsMeetsTarget(MinerHash(c, blockHash, nonce), difficulty);
  }

  /**
   * `QuantumBlockchainIntegration.mine_block`: the first 16 characters of the block hash are read
   * as a hexadecimal number (`int(..., 16)`) and handed to the miner. An empty or non-hex prefix
   * makes `int` raise `ValueError`, which is `None` here.
   */
  method MineBlock(c: Crypto, blockHash: string, difficulty: int) returns (r: Option<int>)
    ensures r.None? <==> |PyTake(blockHash, 16)| == 0 || !IsHexDigits(PyTake(blockHash, 16))
    ensures r.Some? ==> 0 <= r.value <= MaxNonce + 1
    ensures r.Some? && r.value <= MaxNonce ==> Hit(c, HexValue(PyTake(blockHash, 16)), difficulty, r.value)
    ensures r.Some? ==> forall n :: 0 <= n < r.value && n <= MaxNonce ==> !Hit(c, HexValue(PyTake(blockHash, 16)), difficulty, n)
  {
    var prefix := PyTake(blockHash, 16);
    if |prefix| == 0 || !IsHexDigits(prefix) {
      return None;
    }
    var nonce := Mine(c, HexValue(prefix), difficulty);
    return Some(nonce);
  }

  // ---------------------------------------------------------------- QuantumSignature

  /** `''.join(str(m) for m in message)` */
  function MessageString(message: seq<int>): string
  {
    if |message| == 0 then "" else MessageString(message[..|message| - 1]) + IntToString(message[|message| - 1])
  }

  /** `[int(b) for b in bits]` over a string of binary digits. */
  function DigitList(bits: string): (r: seq<Bit>)
    ensures |r| == |bits|
    ensures forall i :: 0 <= i < |r| ==> (r[i] == 1 <==> bits[i] == '1')
  {
    seq(|bits|, i requires 0 <= i < |bits| => if bits[i] == '1' then 1 else 0)
  }

  /**
   * `QuantumSignature.sign` without Q#: the bits, most significant first, of the SHA-256 digest
   * of the message digits followed by the key; eight bits per digest byte.
   */
  function Sign(c: Crypto, message: seq<int>, key: int): (r: seq<Bit>)
    ensures |r| == 8 * |c.digest(MessageString(message) + IntToString(key))|
  {
    DigitList(BitString(c.digest(MessageString(message) + IntToString(key))))
  }

  /** `QuantumSignature.verify` without Q#: re-sign with the given key and compare. */
  predicate Verify(c: Crypto, message: seq<int>, signature: seq<Bit>, key: int)
  {
    signature == Sign(c, message, key)
  }

  /** Round trip: a signature made with a key verifies under that key, and only it does. */
  lemma SignThenVerify(c: Crypto, message: seq<int>, key: int, signature: seq<Bit>)
    ensures Verify(c, message, Sign(c, message, key), key)
    ensures Verify(c, message, signature, key) ==> signature == Sign(c, message, key)
  {
  }

  // ---------------------------------------------------------------- detect_eavesdropping

  /** `sum(1 for a, b in zip(key1, key2) if a != b)`: mismatches over the common prefix. */
  function Mismatches(a: seq<int>, b: seq<int>): nat
  {
    if |a| == 0 || |b| == 0 then 0
    else (if a[0] != b[0] then 1 else 0) + Mismatches(a[1..], b[1..])
  }

  /** At most one mismatch per compared position, none exactly when the common prefix agrees. */
  lemma {:induction false} MismatchesBound(a: seq<int>, b: seq<int>)
    ensures Mismatches(a, b) <= Min(|a|, |b|)
    ensures Mismatches(a, b) == 0 <==> a[..Min(|a|, |b|)] == b[..Min(|a|, |b|)]
    decreases |a|
  {
    var m := Min(|a|, |b|);
    if |a| > 0 && |b| > 0 {
      MismatchesBound(a[1..], b[1..]);
      assert a[1..][..m - 1] == a[1..m] && b[1..][..m - 1] == b[1..m];
      assert a[..m] == [a[0]] + a[1..m] && b[..m] == [b[0]] + b[1..m];
      if a[..m] == b[..m] {
        assert a[0] == a[..m][0] && b[0] == b[..m][0];
        assert a[1..m] == a[..m][1..] && b[1..m] == b[..m][1..];
      }
    }
  }

  /**
   * The error rate `detect_eavesdropping` returns: `0.0` for identical keys, the fraction
   * `mismatches / compared` otherwise, or the `ZeroDivisionError` raised when the keys differ and
   * one of them is empty.
   */
  datatype ErrorRate = Identical | Fraction(mismatches: nat, compared: nat) | ZeroDivision

  /**
   * `QuantumKeyDistribution.detect_eavesdropping` without Q#: identical keys give 0.0 without a
   * division; otherwise the mismatches over the common prefix are divided by the shorter length,
   * which fails when that length is zero.
   */
  function DetectEavesdropping(key1: seq<int>, key2: seq<int>): (r: ErrorRate)
    ensures r.Identical? <==> key1 == key2
    ensures r.ZeroDivision? <==> key1 != key2 && (|key1| == 0 || |key2| == 0)
    ensures r.Fraction? ==> r.compared == Min(|key1|, |key2|) > 0 && r.mismatches <= r.compared
    ensures r.Fraction? ==> (r.mismatches == 0 <==> key1[..r.compared] == key2[..r.compared])
  {
    if key1 == key2 then Identical
    else if Min(|key1|, |key2|) == 0 then ZeroDivision
    else
      MismatchesBound(key1, key2);
      Fraction(Mismatches(key1, key2), Min(|key1|, |key2|))
  }

  // ---------------------------------------------------------------- generate_node_communication_key

  /** The value of a bit list read least significant bit first (`sum(bit << i)`). */
  function LittleEndian(bits: seq<Bit>): nat
  {
    if |bits| == 0 then 0 else LittleEndian(bits[..|bits| - 1]) + bits[|bits| - 1] * Pow(2, |bits| - 1)
  }

  lemma {:induction false} LittleEndianBound(bits: seq<Bit>)
    ensures LittleEndian(bits) < Pow(2, |bits|)
    decreases |bits|
  {
    if |bits| > 0 {
      LittleEndianBound(bits[..|bits| - 1]);
    }
  }

  /** At most 64 bits pack into a value below `16^16`, which sixteen hex digits can hold. */
  lemma PackedKeyFits(bits: seq<Bit>)
    requires |bits| <= 64
    ensures LittleEndian(bits) < Pow(16, 16)
  {
    LittleEndianBound(bits);
    PowMonotone(2, |bits|, 64);
    PowTwoFour(16);
  }

  /**
   * `generate_node_communication_key`: the first (up to) 64 key bits packed least significant
   * first, formatted with `'016x'`. The result is exactly 16 lower-case hex digits and reads back
   * as the packed value.
   */
  method NodeCommunicationKey(keyBits: seq<Bit>) returns (key: string)
    ensures |key| == 16 && IsLowerHex(key)
    ensures HexValue(key) == LittleEndian(PyTake(keyBits, 64))
  {
    var used := PyTake(keyBits, 64);
    var keyInt := 0;
    var i := 0;
    while i < |used|
      invariant 0 <= i <= |used|
      invariant keyInt == LittleEndian(used[..i])
    {
      assert used[..i + 1][..i] == used[..i];
      keyInt := keyInt + used[i] * Pow(2, i);
      i := i + 1;
    }
    assert used[..i] == used;
    PackedKeyFits(used);
    HexWidthExact(keyInt, 16);
    key := HexWidth(keyInt, 16);
  }

  // ---------------------------------------------------------------- create_merkle_root

  /** `[sha256(str(tx)).hexdigest() for tx in transactions]` */
  function LeafHashes(c: Crypto, transactions: seq<Json>): (r: seq<string>)
    ensures |r| == |transactions|
  {
    seq(|transactions|, i requires 0 <= i < |transactions| => HexDigest(c, c.pyStr(transactions[i])))
  }

  /** An odd level gets its last hash appended once more. */
  function PadEven(level: seq<string>): (r: seq<string>)
    requires |level| > 0
    ensures |r| % 2 == 0 && |level| <= |r| && r[..|level|] == level
    ensures |level| % 2 == 1 ==> |r| == |level| + 1 && r[|level|] == level[|level| - 1]
    ensures |level| % 2 == 0 ==> r == level
  {
    if |level| % 2 == 1 then level + [level[|level| - 1]] else level
  }

  /** Neighbouring hashes of an even-length level hashed together, two by two. */
  function Pairs(c: Crypto, padded: seq<string>): (r: seq<string>)
    requires |padded| % 2 == 0
    ensures |r| == |padded| / 2
  {
    seq(|padded| / 2, i requires 0 <= i < |padded| / 2 => HexDigest(c, padded[2 * i] + padded[2 * i + 1]))
  }

  /** One round of the Merkle loop: pad to even length, then hash neighbours pairwise. */
  function NextLevel(c: Crypto, level: seq<string>): (r: seq<string>)
    requires |level| > 0
    ensures |r| == (|level| + 1) / 2
  {
    Pairs(c, PadEven(level))
  }

  /** The Merkle root of a non-empty level: rounds repeat until a single hash is left. */
  function Root(c: Crypto, level: seq<string>): string
    requires |level| > 0
    decreases |level|
  {
    if |level| == 1 then level[0] else Root(c, NextLevel(c, level))
  }

  /** With an odd count the last hash is paired with itself. */
  lemma OddLevelPairsLastWithItself(c: Crypto, level: seq<string>)
    requires |level| % 2 == 1
    ensures NextLevel(c, level)[|level| / 2] == HexDigest(c, level[|level| - 1] + level[|level| - 1])
  {
    var padded := PadEven(level);
    assert padded[2 * (|level| / 2)] == level[|level| - 1];
    assert padded[2 * (|level| / 2) + 1] == level[|level| - 1];
  }

  /** A single transaction's root is its own hash, never paired. */
  lemma SingleTransactionRoot(c: Crypto, tx: Json)
    ensures Root(c, LeafHashes(c, [tx])) == HexDigest(c, c.pyStr(tx))
  {
  }

  /** The list comprehension of one round: `sha256(hashes[i] + hashes[i+1])` for even `i`. */
  method HashPairs(c: Crypto, hashes: seq<string>) returns (next: seq<string>)
    requires |hashes| % 2 == 0
    ensures next == Pairs(c, hashes)
  {
    next := [];
    var i := 0;
    while i < |hashes|
      invariant 0 <= i <= |hashes| && i % 2 == 0
      invariant next == Pairs(c, hashes[..i])
      decreases |hashes| - i
    {
      assert Pairs(c, hashes[..i + 2]) == Pairs(c, hashes[..i]) + [HexDigest(c, hashes[i] + hashes[i + 1])];
      next := next + [HexDigest(c, hashes[i] + hashes[i + 1])];
      i := i + 2;
    }
    assert hashes[..i] == hashes;
  }

  /**
   * `create_merkle_root` without Q#: the loop of rounds over the leaf hashes. An empty list has
   * no `hashes[0]` and raises `IndexError`, which is `None` here. Each round shrinks a level of
   * `n > 1` hashes to `ceil(n / 2)`, and the loop ends with exactly one.
   */
  method CreateMerkleRoot(c: Crypto, transactions: seq<Json>) returns (root: Option<string>)
    ensures root.None? <==> |transactions| == 0
    ensures root.Some? ==> root.value == Root(c, LeafHashes(c, transactions))
  {
    var hashes := LeafHashes(c, transactions);
    if |hashes| == 0 {
      return None;
    }
    while |hashes| > 1
      invariant |hashes| > 0
      invariant Root(c, hashes) == Root(c, LeafHashes(c, transactions))
      decreases |hashes|
    {
      ghost var level := hashes;
      if |hashes| % 2 == 1 {
        hashes := hashes + [hashes[|hashes| - 1]];
      }
      assert hashes == PadEven(level);
      hashes := HashPairs(c, hashes);
      assert hashes == NextLevel(c, level);
    }
    return Some(hashes[0]);
  }
}
