/**
 * The proof-of-work chain of real_blockchain.py: key pairs, blocks, mining, the `Blockchain`
 * operations that append blocks and move tokens, validation and the longest-chain rule.
 *
 * Wall-clock readings, `os.urandom` output and the random key material are parameters. The
 * mining loop, which the source runs without bound, takes a `fuel` budget: `None` means the
 * budget ran out while the loop was still searching.
 */
module RealChain {
  import opened Wrappers
  import opened Text
  import opened Radix
  import opened Oracles
  import opened TokenLedger

  // ---------------------------------------------------------------- CryptoUtils and KeyPair

  /**
   * `generate_random_bits`: the `num_bits // 8` bytes drawn from `os.urandom` (the parameter),
   * each written as eight binary digits. The result is binary, eight characters per byte, and
   * reads back as the big-endian value of the bytes.
   */
  method GenerateRandomBits(random: seq<Byte>) returns (bits: string)
    ensures |bits| == 8 * |random|
    ensures IsBinary(bits)
    ensures BinValue(bits) == BytesValue(random)
  {
    bits := "";
    var i := 0;
    while i < |random|
      invariant 0 <= i <= |random|
      invariant bits == BitString(random[..i])
    {
      assert random[..i + 1][..i] == random[..i];
      bits := bits + Bits(random[i], 8);
      i := i + 1;
    }
    assert random[..i] == random;
    BitStringValue(random);
  }

  datatype KeyPair = KeyPair(privateKey: string, publicKey: string)

  /**
   * `KeyPair(private_key)`: a given non-empty key is kept; a missing or empty one is replaced by
   * `bitstring_to_hex` of fresh random bits. The public key is the SHA-256 hex digest of the
   * private key.
   */
  function NewKeyPair(c: Crypto, given: string, randomBits: string): (k: KeyPair)
    requires given == "" ==> IsBinary(randomBits) && |randomBits| > 0
    ensures given != "" ==> k.privateKey == given
    ensures given == "" ==> IsLowerHex(k.privateKey) && HexValue(k.privateKey) == BinValue(randomBits)
    ensures k.publicKey == HexDigest(c, k.privateKey)
  {
    var priv := if given != "" then given else BitstringToHex(randomBits);
    KeyPair(priv, HexDigest(c, priv))
  }

  /** `KeyPair.sign`: the hex digest of the data followed by the private key. */
  function Sign(c: Crypto, k: KeyPair, data: string): (r: string)
  {
    HexDigest(c, data + k.privateKey)
  }

  /** `KeyPair.verify`: recompute the signature with this key and compare. */
  predicate Verify(c: Crypto, k: KeyPair, data: string, signature: string)
  {
    Sign(c, k, data) == signature
  }

  /**
   * Round trip: a key's own signature verifies, and a signature verifies under a key only when it
   * is the one that key produces for the same data.
   */
  lemma SignVerifies(c: Crypto, k: KeyPair, data: string, signature: string)
    ensures Verify(c, k, data, Sign(c, k, data))
    ensures Verify(c, k, data, signature) <==> signature == Sign(c, k, data)
  {
  }

  // ---------------------------------------------------------------- Block

  /** A block with the fields `to_dict` writes; `timestamp` is the `time.time()` float. */
  datatype Block = Block(
    index: int,
    timestamp: real,
    data: Json,
    previousHash: string,
    signature: string,
    nonce: int,
    hash: string)

  /** The dictionary `_calculate_hash` serialises: every field except the hash itself. */
  function HashedFields(b: Block): Json
  {
    Obj(map[
      "index" := Int(b.index),
      "timestamp" := Float(b.timestamp),
      "data" := b.data,
      "previous_hash" := Str(b.previousHash),
      "signature" := Str(b.signature),
      "nonce" := Int(b.nonce)])
  }

  /** `Block._calculate_hash`: SHA-256 hex digest of the sorted-key JSON of the hashed fields. */
  function CalculateHash(c: Crypto, b: Block): string
  {
    HexDigest(c, c.dumps(HashedFields(b)))
  }

  /** The stored hash is the one `_calculate_hash` gives now. */
  predicate Sealed(c: Crypto, b: Block)
  {
    b.hash == CalculateHash(c, b)
  }

  /** The hash the block would have with nonce `n`. */
  function HashAt(c: Crypto, b: Block, n: int): string
  {
    CalculateHash(c, b.(nonce := n))
  }

  /** Python's `s or fallback` on strings. */
  function OrElse(s: string, fallback: string): (r: string)
    ensures r == s || r == fallback
    ensures r != "" <==> s != "" || fallback != ""
  {
    if s != "" then s else fallback
  }

  /**
   * `Block(...)`: nonce 0, a missing or empty signature replaced by the 128 random bits given,
   * and the hash computed last, so a new block is sealed.
   */
  function NewBlock(c: Crypto, index: int, timestamp: real, data: Json, previousHash: string,
                    signature: string, randomBits: string): (b: Block)
    ensures Sealed(c, b)
    ensures b.nonce == 0
    ensures b.signature == OrElse(signature, randomBits)
    ensures b.index == index && b.previousHash == previousHash && b.data == data && b.timestamp == timestamp
  {
    var unsealed := Block(index, timestamp, data, previousHash, OrElse(signature, randomBits), 0, "");
    unsealed.(hash := CalculateHash(c, unsealed))
  }

  /** One round of the mining loop: `nonce += 1` and the hash recomputed. */
  function Bump(c: Crypto, b: Block): (r: Block)
    ensures r.nonce == b.nonce + 1 && Sealed(c, r)
    ensures r == b.(nonce := r.nonce, hash := r.hash)
    ensures forall n :: HashAt(c, r, n) == HashAt(c, b, n)
  {
    var bumped := b.(nonce := b.nonce + 1);
    bumped.(hash := CalculateHash(c, bumped))
  }

  /**
   * `Block.mine_block`: while `hash[:difficulty] != '0' * difficulty`, bump the nonce and rehash.
   * With enough fuel the result meets the target; only nonce and hash change; the nonce never
   * decreases; every nonce skipped failed the test; a sealed block stays sealed.
   */
  function Mine(c: Crypto, b: Block, difficulty: int, fuel: nat): (r: Option<Block>)
    ensures r.Some? ==> MeetsTarget(r.value.hash, difficulty)
    ensures r.Some? ==> r.value.nonce >= b.nonce && r.value == b.(nonce := r.value.nonce, hash := r.value.hash)
    ensures r.Some? && Sealed(c, b) ==> Sealed(c, r.value)
    ensures r.Some? && r.value.nonce > b.nonce ==> !MeetsTarget(b.hash, difficulty)
    ensures r.Some? ==> forall n :: b.nonce < n < r.value.nonce ==> !MeetsTarget(HashAt(c, b, n), difficulty)
    decreases fuel
  {
    if MeetsTarget(b.hash, difficulty) then Some(b)
    else if fuel == 0 then None
    else Mine(c, Bump(c, b), difficulty, fuel - 1)
  }

  /** With difficulty 0 the loop body never runs: the block comes back with its nonce unchanged. */
  lemma MineZeroDifficulty(c: Crypto, b: Block, fuel: nat)
    ensures Mine(c, b, 0, fuel) == Some(b)
  {
    ZeroDifficultyAlwaysMet(b.hash);
  }

  /**
   * Completeness of the search: if nonce `b.nonce + k` meets the target, `k` steps of fuel
   * suffice and mining stops at that nonce or an earlier one.
   */
  lemma {:induction false} MineFindsWithin(c: Crypto, b: Block, difficulty: int, fuel: nat, k: nat)
    requires Sealed(c, b)
    requires k <= fuel
    requires MeetsTarget(HashAt(c, b, b.nonce + k), difficulty)
    ensures Mine(c, b, difficulty, fuel).Some?
    ensures Mine(c, b, difficulty, fuel).value.nonce <= b.nonce + k
    decreases fuel
  {
    if !MeetsTarget(b.hash, difficulty) {
      if k == 0 {
        assert false;
      }
      var next := Bump(c, b);
      assert HashAt(c, next, next.nonce + (k - 1)) == HashAt(c, b, b.nonce + k);
      MineFindsWithin(c, next, difficulty, fuel - 1, k - 1);
    }
  }

  /** More fuel never changes a search that already finished. */
  lemma {:induction false} MineFuelMonotone(c: Crypto, b: Block, difficulty: int, fuel: nat, more: nat)
    requires Mine(c, b, difficulty, fuel).Some?
    requires fuel <= more
    ensures Mine(c, b, difficulty, more) == Mine(c, b, difficulty, fuel)
    decreases fuel
  {
    if !MeetsTarget(b.hash, difficulty) {
      MineFuelMonotone(c, Bump(c, b), difficulty, fuel - 1, more - 1);
    }
  }

  // ---------------------------------------------------------------- Blockchain state

  /** `Blockchain`: its blocks, the mining difficulty, the pending transactions and the token. */
  datatype Chain = Chain(blocks: seq<Block>, difficulty: int, pending: seq<Json>, token: Token)

  /** The checks `is_chain_valid` makes on block `i`: hash, link and proof of work. */
  predicate ValidAt(c: Crypto, blocks: seq<Block>, i: int, difficulty: int)
    requires 1 <= i < |blocks|
  {
    Sealed(c, blocks[i])
    && blocks[i].previousHash == blocks[i - 1].hash
    && MeetsTarget(blocks[i].hash, difficulty)
  }

  /** Every block after the first passes the three checks; block 0 is never examined. */
  predicate ChainValid(c: Crypto, blocks: seq<Block>, difficulty: int)
  {
    forall i :: 1 <= i < |blocks| ==> ValidAt(c, blocks, i, difficulty)
  }

  /** Every block stores its own position as its index. */
  predicate IndexedByPosition(blocks: seq<Block>)
  {
    forall i :: 0 <= i < |blocks| ==> blocks[i].index == i
  }

  /**
   * `after` is `before` with one mined block appended: the index is the old length, the link is
   * the old last hash, the block is sealed and meets the difficulty, and the old blocks are kept.
   */
  predicate Appended(c: Crypto, before: seq<Block>, after: seq<Block>, difficulty: int)
    requires |before| > 0
  {
    |after| == |before| + 1
    && after[..|before|] == before
    && Last(after).index == |before|
    && Last(after).previousHash == Last(before).hash
    && Sealed(c, Last(after))
    && MeetsTarget(Last(after).hash, difficulty)
  }

  /** An append keeps a valid chain valid. */
  lemma AppendedKeepsValid(c: Crypto, before: seq<Block>, after: seq<Block>, difficulty: int)
    requires |before| > 0 && Appended(c, before, after, difficulty)
    requires ChainValid(c, before, difficulty)
    ensures ChainValid(c, after, difficulty)
  {
    forall i | 1 <= i < |after|
      ensures ValidAt(c, after, i, difficulty)
    {
      if i < |before| {
        assert after[i] == before[i] && after[i - 1] == before[i - 1];
        assert ValidAt(c, before, i, difficulty);
      } else {
        assert after[i - 1] == before[|before| - 1];
      }
    }
  }

  /** An append keeps every index equal to its position. */
  lemma AppendedKeepsIndices(c: Crypto, before: seq<Block>, after: seq<Block>, difficulty: int)
    requires |before| > 0 && Appended(c, before, after, difficulty)
    requires IndexedByPosition(before)
    ensures IndexedByPosition(after)
  {
    forall i | 0 <= i < |after|
      ensures after[i].index == i
    {
      if i < |before| {
        assert after[i] == before[i];
      }
    }
  }

  /** `is_chain_valid`: the loop over blocks 1.. that stops at the first failed check. */
  method IsChainValid(c: Crypto, blocks: seq<Block>, difficulty: int) returns (valid: bool)
    ensures valid <==> ChainValid(c, blocks, difficulty)
  {
    var i := 1;
    while i < |blocks|
      invariant 1 <= i
      invariant forall j :: 1 <= j < i && j < |blocks| ==> ValidAt(c, blocks, j, difficulty)
    {
      var current := blocks[i];
      if current.hash != CalculateHash(c, current) {
        assert !ValidAt(c, blocks, i, difficulty);
        return false;
      }
      if current.previousHash != blocks[i - 1].hash {
        assert !ValidAt(c, blocks, i, difficulty);
        return false;
      }
      if PyTake(current.hash, difficulty) != Zeros(difficulty) {
        assert !ValidAt(c, blocks, i, difficulty);
        return false;
      }
      i := i + 1;
    }
    return true;
  }

  // ---------------------------------------------------------------- genesis

  /** The Chinese strings the genesis block carries. */
  const GenesisMessage := "\U{521b}\U{4e16}\U{533a}\U{5757}"
  const GenesisCreator := "Blockchain\U{521b}\U{5efa}\U{8005}"

  function GenesisData(name: string, symbol: string, supply: int, isoTime: string,
                       creator: Address, signatureKey: string): Json
  {
    Obj(map[
      "message" := Str(GenesisMessage),
      "timestamp" := Str(isoTime),
      "creator" := Str(GenesisCreator),
      "creator_address" := Str(creator),
      "signature_key" := Str(signatureKey),
      "token_info" := Obj(map[
        "name" := Str(name),
        "symbol" := Str(symbol),
        "total_supply" := Int(supply),
        "initial_holder" := Str(creator)])])
  }

  /** The address of the creator key made from `keyBits`. */
  function CreatorAddress(c: Crypto, keyBits: string): Address
    requires IsBinary(keyBits) && |keyBits| > 0
  {
    NewKeyPair(c, "", keyBits).publicKey
  }

  /**
   * `Blockchain(...)` with `_create_genesis_block`: a token of 18 decimals whose whole supply
   * goes to a fresh creator key, and one mined block with index 0 and 64 '0's as previous hash,
   * signed with the raw random bits and naming the creator's address.
   */
  function Genesis(c: Crypto, difficulty: int, name: string, symbol: string, supply: int,
                   signatureBits: string, keyBits: string, timestamp: real, isoTime: string,
                   fuel: nat): (r: Option<Chain>)
    requires IsBinary(signatureBits) && |signatureBits| > 0
    requires IsBinary(keyBits) && |keyBits| > 0
    ensures r.Some? ==> |r.value.blocks| == 1 && r.value.pending == [] && r.value.difficulty == difficulty
    ensures r.Some? ==> r.value.blocks[0].index == 0 && r.value.blocks[0].previousHash == Zeros(64)
    ensures r.Some? ==> Sealed(c, r.value.blocks[0]) && MeetsTarget(r.value.blocks[0].hash, difficulty)
    ensures r.Some? ==> r.value.blocks[0].signature == signatureBits
    ensures r.Some? ==> BalanceOf(r.value.token, CreatorAddress(c, keyBits)) == supply
    ensures r.Some? ==> r.value.token.totalSupply == supply && r.value.token.decimals == 18
    ensures r.Some? ==> ChainValid(c, r.value.blocks, difficulty) && IndexedByPosition(r.value.blocks)
  {
    var creator := CreatorAddress(c, keyBits);
    var token := InitialDistribution(NewToken(name, symbol, 18, supply), creator);
    var data := GenesisData(name, symbol, supply, isoTime, creator, BitstringToHex(signatureBits));
    var block := NewBlock(c, 0, timestamp, data, Zeros(64), signatureBits, "");
    match Mine(c, block, difficulty, fuel)
    case None => None
    case Some(mined) => Some(Chain([mined], difficulty, [], token))
  }

  /** The genesis token's balances add up to its supply. */
  lemma GenesisSupplyMatches(c: Crypto, difficulty: int, name: string, symbol: string, supply: int,
                             signatureBits: string, keyBits: string, timestamp: real, isoTime: string,
                             fuel: nat)
    requires IsBinary(signatureBits) && |signatureBits| > 0
    requires IsBinary(keyBits) && |keyBits| > 0
    requires Genesis(c, difficulty, name, symbol, supply, signatureBits, keyBits, timestamp, isoTime, fuel).Some?
    ensures SupplyMatches(Genesis(c, difficulty, name, symbol, supply, signatureBits, keyBits, timestamp, isoTime, fuel).value.token)
  {
    DistributionMatchesSupply(name, symbol, 18, supply, CreatorAddress(c, keyBits));
  }

  // ---------------------------------------------------------------- add_block

  /**
   * The data `add_block` stores when given a key: a dictionary gains "public_key" and "signature"
   * (the signature over the sorted-key JSON of the data as passed in); any other value is kept.
   */
  function SignedData(c: Crypto, data: Json, key: KeyPair): Json
  {
    var signature := Sign(c, key, c.dumps(data));
    if data.Obj? then Obj(data.fields["public_key" := Str(key.publicKey)]["signature" := Str(signature)])
    else data
  }

  /**
   * `Blockchain.add_block`: one mined block is appended after the last one, carrying the
   * (possibly signed) data; pending transactions, token and difficulty are untouched.
   */
  function AddBlock(c: Crypto, ch: Chain, data: Json, key: Option<KeyPair>, timestamp: real,
                    randomBits: string, fuel: nat): (r: Option<Chain>)
    requires |ch.blocks| > 0
    ensures r.Some? ==> Appended(c, ch.blocks, r.value.blocks, ch.difficulty)
    ensures r.Some? ==> r.value.(blocks := ch.blocks) == ch
    ensures r.Some? && key.None? ==> Last(r.value.blocks).data == data
    ensures r.Some? && key.Some? ==> Last(r.value.blocks).data == SignedData(c, data, key.value)
    ensures r.Some? && key.Some? ==>
      Last(r.value.blocks).signature == OrElse(Sign(c, key.value, c.dumps(data)), randomBits)
    ensures r.Some? && key.None? ==> Last(r.value.blocks).signature == randomBits
  {
    var signature := if key.Some? then Sign(c, key.value, c.dumps(data)) else "";
    var stored := if key.Some? then SignedData(c, data, key.value) else data;
    var block := NewBlock(c, |ch.blocks|, timestamp, stored, Last(ch.blocks).hash, signature, randomBits);
    match Mine(c, block, ch.difficulty, fuel)
    case None => None
    case Some(mined) => Some(ch.(blocks := ch.blocks + [mined]))
  }

  /** `add_block` keeps a valid chain valid and keeps indices equal to positions. */
  lemma AddBlockPreservesValidity(c: Crypto, ch: Chain, data: Json, key: Option<KeyPair>,
                                  timestamp: real, randomBits: string, fuel: nat)
    requires |ch.blocks| > 0
    requires ChainValid(c, ch.blocks, ch.difficulty) && IndexedByPosition(ch.blocks)
    requires AddBlock(c, ch, data, key, timestamp, randomBits, fuel).Some?
    ensures ChainValid(c, AddBlock(c, ch, data, key, timestamp, randomBits, fuel).value.blocks, ch.difficulty)
    ensures IndexedByPosition(AddBlock(c, ch, data, key, timestamp, randomBits, fuel).value.blocks)
  {
    var after := AddBlock(c, ch, data, key, timestamp, randomBits, fuel).value.blocks;
    AppendedKeepsValid(c, ch.blocks, after, ch.difficulty);
    AppendedKeepsIndices(c, ch.blocks, after, ch.difficulty);
  }

  // ---------------------------------------------------------------- token operations on the chain

  datatype Refusal = InsufficientBalance | NotCreator | GenesisDataNotADict

  /**
   * What a token operation on the chain ends in: refused (the chain is left as it was),
   * recorded in a new block (with the record as stored in that block), or still mining when the
   * fuel ran out.
   */
  datatype Receipt = Refused(reason: Refusal) | Recorded(chain: Chain, record: Json) | StillMining

  function TransferRecord(sender: Address, recipient: Address, amount: int, symbol: string, timestamp: real): map<string, Json>
  {
    map[
      "type" := Str("token_transfer"),
      "sender" := Str(sender),
      "recipient" := Str(recipient),
      "amount" := Int(amount),
      "token" := Str(symbol),
      "timestamp" := Float(timestamp)]
  }

  /** A transaction dictionary with its "signature" field added. */
  function WithSignature(c: Crypto, fields: map<string, Json>, key: KeyPair): Json
  {
    Obj(fields["signature" := Str(Sign(c, key, c.dumps(Obj(fields))))])
  }

  /**
   * `Blockchain.transfer_token`: refused exactly when the sender's address holds less than
   * `amount`; otherwise the token transfer happens and a signed transfer record is mined into a
   * new block, and the receipt's record is that block's data.
   */
  function TransferToken(c: Crypto, ch: Chain, senderKey: KeyPair, recipient: Address, amount: int,
                         txTime: real, blockTime: real, randomBits: string, fuel: nat): (r: Receipt)
    requires |ch.blocks| > 0
    ensures r.Refused? <==> BalanceOf(ch.token, senderKey.publicKey) < amount
    ensures r.Refused? ==> r.reason == InsufficientBalance
    ensures r.Recorded? ==> r.chain.token == Transfer(ch.token, senderKey.publicKey, recipient, amount).token
    ensures r.Recorded? ==> Moved(ch.token.balances, r.chain.token.balances, senderKey.publicKey, recipient, amount)
    ensures r.Recorded? ==> Appended(c, ch.blocks, r.chain.blocks, ch.difficulty)
    ensures r.Recorded? ==> r.record == Last(r.chain.blocks).data && r.record.Obj?
    ensures r.Recorded? ==> "type" in r.record.fields && "amount" in r.record.fields
    ensures r.Recorded? ==> r.record.fields["type"] == Str("token_transfer") && r.record.fields["amount"] == Int(amount)
    ensures r.Recorded? ==> r.chain.pending == ch.pending && r.chain.difficulty == ch.difficulty
  {
    var sender := senderKey.publicKey;
    if BalanceOf(ch.token, sender) < amount then Refused(InsufficientBalance)
    else
      var moved := Transfer(ch.token, sender, recipient, amount);
      var record := WithSignature(c, TransferRecord(sender, recipient, amount, ch.token.symbol, txTime), senderKey);
      match AddBlock(c, ch.(token := moved.token), record, Some(senderKey), blockTime, randomBits, fuel)
      case None => StillMining
      case Some(next) => Recorded(next, Last(next.blocks).data)
  }

  /** A recorded transfer leaves the sum of balances and the supply as they were. */
  lemma TransferTokenConserves(c: Crypto, ch: Chain, senderKey: KeyPair, recipient: Address, amount: int,
                               txTime: real, blockTime: real, randomBits: string, fuel: nat)
    requires |ch.blocks| > 0
    requires SupplyMatches(ch.token)
    requires TransferToken(c, ch, senderKey, recipient, amount, txTime, blockTime, randomBits, fuel).Recorded?
    ensures SupplyMatches(TransferToken(c, ch, senderKey, recipient, amount, txTime, blockTime, randomBits, fuel).chain.token)
  {
    TransferConserves(ch.token, senderKey.publicKey, recipient, amount);
  }

  function MintRecord(minter: Address, recipient: Address, amount: int, symbol: string, newSupply: int, timestamp: real): map<string, Json>
  {
    map[
      "type" := Str("token_mint"),
      "minter" := Str(minter),
      "recipient" := Str(recipient),
      "amount" := Int(amount),
      "token" := Str(symbol),
      "new_total_supply" := Int(newSupply),
      "timestamp" := Float(timestamp)]
  }

  /**
   * The creator check of `mint_tokens`: `chain[0].data.get("creator_address")` compared with the
   * caller's public key (a missing entry reads as `None`, which equals no address).
   */
  predicate IsCreator(genesisData: Json, admin: Address)
    requires genesisData.Obj?
  {
    "creator_address" in genesisData.fields && genesisData.fields["creator_address"] == Str(admin)
  }

  /**
   * `Blockchain.mint_tokens`: a genesis block whose data is not a dictionary makes `.get` raise;
   * a caller that is not the recorded creator is refused with nothing changed; the creator raises
   * the supply and the recipient's balance by `amount` and a signed mint record is mined.
   */
  function MintTokens(c: Crypto, ch: Chain, adminKey: KeyPair, recipient: Address, amount: int,
                      recordTime: real, blockTime: real, randomBits: string, fuel: nat): (r: Receipt)
    requires |ch.blocks| > 0
    ensures !ch.blocks[0].data.Obj? <==> r == Refused(GenesisDataNotADict)
    ensures ch.blocks[0].data.Obj? ==> (r == Refused(NotCreator) <==> !IsCreator(ch.blocks[0].data, adminKey.publicKey))
    ensures r.Recorded? ==> r.chain.token == Mint(ch.token, recipient, amount)
    ensures r.Recorded? ==> r.chain.token.totalSupply == ch.token.totalSupply + amount
    ensures r.Recorded? ==> BalanceOf(r.chain.token, recipient) == BalanceOf(ch.token, recipient) + amount
    ensures r.Recorded? ==> Appended(c, ch.blocks, r.chain.blocks, ch.difficulty)
    ensures r.Recorded? ==> r.record == Last(r.chain.blocks).data && r.record.Obj?
    ensures r.Recorded? ==> "new_total_supply" in r.record.fields
    ensures r.Recorded? ==> r.record.fields["new_total_supply"] == Int(ch.token.totalSupply + amount)
  {
    var genesisData := ch.blocks[0].data;
    if !genesisData.Obj? then Refused(GenesisDataNotADict)
    else if !IsCreator(genesisData, adminKey.publicKey) then Refused(NotCreator)
    else
      var minted := Mint(ch.token, recipient, amount);
      var fields := MintRecord(adminKey.publicKey, recipient, amount, ch.token.symbol, minted.totalSupply, recordTime);
      var record := WithSignature(c, fields, adminKey);
      match AddBlock(c, ch.(token := minted), record, Some(adminKey), blockTime, randomBits, fuel)
      case None => StillMining
      case Some(next) => Recorded(next, Last(next.blocks).data)
  }

  /** The creator key of a fresh chain is never refused by `mint_tokens`. */
  lemma GenesisCreatorMayMint(c: Crypto, difficulty: int, name: string, symbol: string, supply: int,
                              signatureBits: string, keyBits: string, timestamp: real, isoTime: string,
                              fuel: nat, recipient: Address, amount: int, recordTime: real,
                              blockTime: real, randomBits: string, mineFuel: nat)
    requires IsBinary(signatureBits) && |signatureBits| > 0
    requires IsBinary(keyBits) && |keyBits| > 0
    requires Genesis(c, difficulty, name, symbol, supply, signatureBits, keyBits, timestamp, isoTime, fuel).Some?
    ensures !MintTokens(c, Genesis(c, difficulty, name, symbol, supply, signatureBits, keyBits, timestamp, isoTime, fuel).value,
                        NewKeyPair(c, "", keyBits), recipient, amount, recordTime, blockTime, randomBits, mineFuel).Refused?
  {
    var creator := CreatorAddress(c, keyBits);
    var data := GenesisData(name, symbol, supply, isoTime, creator, BitstringToHex(signatureBits));
    var block := NewBlock(c, 0, timestamp, data, Zeros(64), signatureBits, "");
    var mined := Mine(c, block, difficulty, fuel).value;
    assert mined.data == data;
    assert IsCreator(data, creator);
  }

  /** Minting by the creator raises balances and supply together. */
  lemma MintTokensKeepsSupplyMatched(c: Crypto, ch: Chain, adminKey: KeyPair, recipient: Address, amount: int,
                                     recordTime: real, blockTime: real, randomBits: string, fuel: nat)
    requires |ch.blocks| > 0
    requires SupplyMatches(ch.token)
    requires MintTokens(c, ch, adminKey, recipient, amount, recordTime, blockTime, randomBits, fuel).Recorded?
    ensures SupplyMatches(MintTokens(c, ch, adminKey, recipient, amount, recordTime, blockTime, randomBits, fuel).chain.token)
  {
    MintKeepsSupplyMatched(ch.token, recipient, amount);
  }

  // ---------------------------------------------------------------- pending transactions

  /**
   * `Blockchain.add_transaction`: a signed transaction carrying the signer's public key is queued
   * after the existing ones; the answer is the last block's index plus one. Blocks and token are
   * untouched.
   */
  function AddTransaction(c: Crypto, ch: Chain, sender: Address, recipient: Address, amount: real,
                          key: KeyPair, timestamp: real): (r: (Chain, int))
    requires |ch.blocks| > 0
    ensures |r.0.pending| == |ch.pending| + 1 && r.0.pending[..|ch.pending|] == ch.pending
    ensures r.0.(pending := ch.pending) == ch
    ensures Last(r.0.pending).Obj? && "sender" in Last(r.0.pending).fields && "public_key" in Last(r.0.pending).fields
    ensures Last(r.0.pending).fields["sender"] == Str(sender)
    ensures Last(r.0.pending).fields["public_key"] == Str(key.publicKey)
    ensures r.1 == Last(ch.blocks).index + 1
  {
    var fields := map[
      "sender" := Str(sender),
      "recipient" := Str(recipient),
      "amount" := Float(amount),
      "timestamp" := Float(timestamp)];
    var signed := WithSignature(c, fields, key);
    var tx := Obj(signed.fields["public_key" := Str(key.publicKey)]);
    (ch.(pending := ch.pending + [tx]), Last(ch.blocks).index + 1)
  }

  /** On a chain whose indices are positions, the promised index is the next block's position. */
  lemma AddTransactionNamesNextBlock(c: Crypto, ch: Chain, sender: Address, recipient: Address, amount: real,
                                     key: KeyPair, timestamp: real)
    requires |ch.blocks| > 0 && IndexedByPosition(ch.blocks)
    ensures AddTransaction(c, ch, sender, recipient, amount, key, timestamp).1 == |ch.blocks|
  {
  }

  /** The mining reward: 1.0 from the system address "0". */
  function Reward(miner: Address, timestamp: real): Json
  {
    Obj(map[
      "sender" := Str("0"),
      "recipient" := Str(miner),
      "amount" := Float(1.0),
      "timestamp" := Float(timestamp),
      "type" := Str("reward")])
  }

  /**
   * `Blockchain.mine_pending_transactions`: one block holding every pending transaction in order
   * followed by the reward is mined and appended, and the pending list is emptied.
   */
  function MinePendingTransactions(c: Crypto, ch: Chain, miner: Address, rewardTime: real,
                                   blockTime: real, randomBits: string, fuel: nat): (r: Option<Chain>)
    requires |ch.blocks| > 0
    ensures r.Some? ==> Appended(c, ch.blocks, r.value.blocks, ch.difficulty)
    ensures r.Some? ==> r.value.pending == [] && r.value.token == ch.token && r.value.difficulty == ch.difficulty
    ensures r.Some? ==> Last(r.value.blocks).data.Obj? && "transactions" in Last(r.value.blocks).data.fields
    ensures r.Some? ==>
      var txs := Last(r.value.blocks).data.fields["transactions"];
      txs.Arr? && |txs.items| == |ch.pending| + 1
      && txs.items[..|ch.pending|] == ch.pending
      && Last(txs.items) == Reward(miner, rewardTime)
    ensures r.Some? ==>
      var reward := Last(Last(r.value.blocks).data.fields["transactions"].items);
      reward.Obj? && "sender" in reward.fields && "recipient" in reward.fields && "amount" in reward.fields
      && reward.fields["sender"] == Str("0") && reward.fields["recipient"] == Str(miner)
      && reward.fields["amount"] == Float(1.0)
    ensures r.Some? ==> Last(r.value.blocks).signature == randomBits
  {
    var data := Obj(map["transactions" := Arr(ch.pending + [Reward(miner, rewardTime)])]);
    var block := NewBlock(c, |ch.blocks|, blockTime, data, Last(ch.blocks).hash, "", randomBits);
    match Mine(c, block, ch.difficulty, fuel)
    case None => None
    case Some(mined) => Some(ch.(blocks := ch.blocks + [mined], pending := []))
  }

  /** Mining pending transactions keeps a valid chain valid. */
  lemma MinePendingPreservesValidity(c: Crypto, ch: Chain, miner: Address, rewardTime: real,
                                     blockTime: real, randomBits: string, fuel: nat)
    requires |ch.blocks| > 0
    requires ChainValid(c, ch.blocks, ch.difficulty) && IndexedByPosition(ch.blocks)
    requires MinePendingTransactions(c, ch, miner, rewardTime, blockTime, randomBits, fuel).Some?
    ensures ChainValid(c, MinePendingTransactions(c, ch, miner, rewardTime, blockTime, randomBits, fuel).value.blocks, ch.difficulty)
    ensures IndexedByPosition(MinePendingTransactions(c, ch, miner, rewardTime, blockTime, randomBits, fuel).value.blocks)
  {
    var after := MinePendingTransactions(c, ch, miner, rewardTime, blockTime, randomBits, fuel).value.blocks;
    AppendedKeepsValid(c, ch.blocks, after, ch.difficulty);
    AppendedKeepsIndices(c, ch.blocks, after, ch.difficulty);
  }

  // ---------------------------------------------------------------- resolve_conflicts

  /**
   * A block rebuilt from another node's dictionary: the constructor replaces an empty signature
   * with fresh random bits, then the received hash is written over the computed one.
   */
  function Rebuild(record: Block, freshBits: string): Block
  {
    record.(signature := OrElse(record.signature, freshBits))
  }

  /** The chain rebuilt from candidate `k`; `fallbacks(k, i)` is the random fallback for block `i`. */
  function Rebuilt(candidates: seq<seq<Block>>, k: int, fallbacks: (int, int) -> string): (r: seq<Block>)
    requires 0 <= k < |candidates|
    ensures |r| == |candidates[k]|
  {
    seq(|candidates[k]|, i requires 0 <= i < |candidates[k]| => Rebuild(candidates[k][i], fallbacks(k, i)))
  }

  /** Candidate `k` is longer than the local chain and passes the link, hash and work checks. */
  predicate Eligible(c: Crypto, ch: Chain, candidates: seq<seq<Block>>, k: int, fallbacks: (int, int) -> string)
    requires 0 <= k < |candidates|
  {
    |candidates[k]| > |ch.blocks| && ChainValid(c, Rebuilt(candidates, k, fallbacks), ch.difficulty)
  }

  /**
   * Candidate `k` is eligible, no eligible candidate is longer, and every eligible candidate
   * before it is strictly shorter.
   */
  predicate Chosen(c: Crypto, ch: Chain, candidates: seq<seq<Block>>, k: int, fallbacks: (int, int) -> string)
  {
    0 <= k < |candidates| && Eligible(c, ch, candidates, k, fallbacks)
    && (forall j :: 0 <= j < |candidates| && Eligible(c, ch, candidates, j, fallbacks) ==> |candidates[j]| <= |candidates[k]|)
    && (forall j :: 0 <= j < k && Eligible(c, ch, candidates, j, fallbacks) ==> |candidates[j]| < |candidates[k]|)
  }

  /**
   * `Blockchain.resolve_conflicts`: the chain is replaced exactly when some candidate is eligible;
   * the replacement is the rebuilt form of an eligible candidate that no other eligible one is
   * longer than, and the first of that length. Otherwise the chain stays as it was.
   */
  method ResolveConflicts(c: Crypto, ch: Chain, candidates: seq<seq<Block>>, fallbacks: (int, int) -> string)
    returns (replaced: bool, r: Chain)
    ensures replaced <==> exists k :: 0 <= k < |candidates| && Eligible(c, ch, candidates, k, fallbacks)
    ensures !replaced ==> r == ch
    ensures replaced ==> exists k :: Chosen(c, ch, candidates, k, fallbacks) && r == ch.(blocks := Rebuilt(candidates, k, fallbacks))
  {
    var best: Option<nat> := None;
    var maxLength := |ch.blocks|;
    var k := 0;
    while k < |candidates|
      invariant 0 <= k <= |candidates|
      invariant best.None? ==> maxLength == |ch.blocks|
      invariant best.None? ==> forall j :: 0 <= j < k ==> !Eligible(c, ch, candidates, j, fallbacks)
      invariant best.Some? ==> best.value < k && Eligible(c, ch, candidates, best.value, fallbacks)
      invariant best.Some? ==> maxLength == |candidates[best.value]|
      invariant best.Some? ==> forall j :: 0 <= j < k && Eligible(c, ch, candidates, j, fallbacks) ==> |candidates[j]| <= maxLength
      invariant best.Some? ==> forall j :: 0 <= j < best.value && Eligible(c, ch, candidates, j, fallbacks) ==> |candidates[j]| < maxLength
    {
      if |candidates[k]| > maxLength {
        var chain := Rebuilt(candidates, k, fallbacks);
        var valid := IsChainValid(c, chain, ch.difficulty);
        if valid {
          best := Some(k);
          maxLength := |candidates[k]|;
        }
      }
      k := k + 1;
    }
    if best.Some? {
      replaced := true;
      r := ch.(blocks := Rebuilt(candidates, best.value, fallbacks));
    } else {
      replaced := false;
      r := ch;
    }
  }
}
