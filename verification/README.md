# Q-CHAIN ledgers in Dafny

Q-CHAIN is a set of small Python blockchains that decorate classical hashing with "quantum"
randomness. This project models their sequential core as pure Dafny functions and methods over
immutable data and proves what each operation promises:

- `TokenLedger` (token.dfy): the `Token` balance and allowance ledger of real_blockchain.py:
  transfer, approve, transfer_from, mint, the initial distribution and the `to_dict`/`from_dict`
  round trip.
- `RealChain` (realchain.dfy): the proof-of-work chain of real_blockchain.py. It covers key pairs
  and signatures, block sealing, the mining loop, genesis with the token, `add_block`,
  `transfer_token`, `mint_tokens`, pending transactions with the mining reward, `is_chain_valid`
  and the longest-valid-chain rule of `resolve_conflicts`.
- `QSharpIntegration` (qsharp.dfy): the branches of qsharp_integration.py taken when `qsharp` is
  not installed. These are the bounded nonce search, the hash signature and its verification, the
  eavesdropping estimate, the 64-bit node key and the Merkle root.
- `QuantumChain` (qchain.dfy): quantum_blockchain.py, with chunked bit generation, sealed blocks,
  genesis, `add_block` and hash-and-link validation without proof of work.
- `HostChain` (hostchain.dfy): the Flask host chain of quantum_blockchain_qsharp/host/app.py.
  Its `add_block` appends only blocks that pass `is_valid`.
- `Pqec` (pqec.dfy): quantum_blockchain_qsharp/host/pqec_app.py. It covers the statistics with
  their two `deque(maxlen=100)` queues, the error-correction simulator and its code-type gate, and
  the PQEC chain with its 64-digit proofs, mining and proof verification.
- `UnifiedApi` (unified.dfy): quantum_blockchain_qsharp/host/unified_api.py. It covers the
  linkage-only chain, the `EC:<d>:` proof format with its verifier, the consensus counters and the
  result codes of `handle_action`.
- `Text`, `Radix`, `Oracles`, `Wrappers`: Python string, slicing and number-formatting semantics
  (`s[:n]` with negative `n`, `str.split`, `zfill`, `int(s, 2)`, `hex()`, `format(n, '016x')`),
  the JSON value type, and `Option` for the paths where Python raises or returns `None`.

Nothing here looks inside a hash. Every operation that hashes or serialises takes a `Crypto`
bundle: SHA-256 as hex digest and as raw bytes, `json.dumps(..., sort_keys=True)`, `str()` and
Qiskit's `quantum_hash`. Every result holds for every choice of those functions. `quantum_hash` is also modelled as the sampled run it is in Python (see Findings). Clock readings,
`random`/`os.urandom`/`secrets` draws and circuit measurements are parameters. The unbounded
mining loop of real_blockchain.py takes a fuel budget.

## Model

The hash and serialisation definitions (`CalculateHash` in each chain module, `HashedFields`, `Document`, `TokenLedger.ToDict`, `UnifiedApi.QuantumHash`, `UnifiedApi.ProofBase`) carry no contract of their own. They are covered by the rows of the members whose contracts use them, such as `NewBlock`, `Sealed`, `IsChainValid` and `DecodedInvertsToDict`.

| member | source | states |
|---|---|---|
| `Text.MeetsTargetMeaning` | real_blockchain.py:340-342 | `hash[:d] == '0' * d` holds for `d >= 0` exactly when the hash has at least `d` characters and they are all '0'; for a negative `d` (Python slicing from the end) exactly when the hash has at most `-d` characters |
| `Text.ZeroDifficultyAlwaysMet` | real_blockchain.py:340-342 | difficulty 0 is met by every hash |
| `Text.StartsWithZerosIsMeetsTarget` | qsharp_integration.py:209-213 | `h.startswith('0' * d)` and the ledgers' slice test `h[:d] == '0' * d` agree for every `d >= 0` |
| `Text.SplitCount` | quantum_blockchain_qsharp/host/unified_api.py:159-161 | `proof.split(':')` has exactly one more part than the proof has colons |
| `Text.JoinSplit` | quantum_blockchain_qsharp/host/unified_api.py:159 | joining the parts of `split(':')` with ':' gives the original string back |
| `Radix.BitsValue` | real_blockchain.py:41-42 | `format(v, '0{w}b')` for `v < 2^w` is `w` binary digits reading back as `v` |
| `Radix.BitStringValue` | real_blockchain.py:37-44 | the concatenated `format(byte, '08b')` of a byte string is binary and reads back as the bytes' big-endian value |
| `Radix.PadToNibbles` | real_blockchain.py:58-60 | the left padding makes the length a multiple of 4 and adds fewer than 4 characters |
| `Radix.PaddingKeepsValue` | quantum_blockchain.py:90-92 | padding with leading '0's leaves the binary value unchanged |
| `Radix.NatToHexMeaning` | quantum_blockchain.py:95 | `hex(n)[2:]` reads back as `n`, uses lower-case digits, has no leading zero and is "0" exactly for zero |
| `Radix.HexWidthExact` | qsharp_integration.py:393 | `format(n, '0{w}x')` for `n < 16^w` is exactly `w` lower-case digits reading back as `n` |
| `Radix.BitstringToHex` | real_blockchain.py:47-63 | `bitstring_to_hex` keeps the numeric value, writes lower-case digits with no leading zero, and is never longer than the padded input divided by four |
| `Radix.BitstringToHexWidth` | quantum_blockchain.py:79-95 | the rendering has at most `ceil(len / 4)` digits |
| `TokenLedger.InitialDistribution` | real_blockchain.py:156-163 | the creator's balance is set (not added) to the total supply; every other balance and field is unchanged |
| `TokenLedger.Transfer` | real_blockchain.py:177-194 | refused exactly when the sender holds less than `amount`, with the token unchanged; otherwise `amount` moves from sender to recipient and only balances change |
| `TokenLedger.Approve` | real_blockchain.py:196-209 | always succeeds; the (owner, spender) allowance becomes `amount`, every other allowance and all balances are unchanged |
| `TokenLedger.ApproveOverwrites` | real_blockchain.py:208 | a second approval replaces the first rather than adding to it |
| `TokenLedger.TransferFrom` | real_blockchain.py:224-243 | succeeds exactly when both the owner's balance and the spender's allowance cover `amount`; then the balance moves and that allowance drops by `amount`, nothing else changes; a refusal changes nothing |
| `TokenLedger.Mint` | real_blockchain.py:553-557 | total supply and the recipient's balance both grow by exactly `amount`; other balances are unchanged |
| `TokenLedger.DistributionMatchesSupply` | real_blockchain.py:139-163 | a fresh token given wholly to its creator has balances summing to its supply |
| `TokenLedger.TransferConserves` | real_blockchain.py:189-194 | `transfer` preserves the sum of all balances, whether it succeeds or not |
| `TokenLedger.TransferFromConserves` | real_blockchain.py:237-243 | `transfer_from` preserves the sum of all balances |
| `TokenLedger.MintKeepsSupplyMatched` | real_blockchain.py:553-557 | minting raises the balance sum and the supply together, so balances keep adding up to the supply |
| `TokenLedger.CopySpenders` | real_blockchain.py:281-282 | the inner `from_dict` loop copies one owner's spender table exactly, and an owner with no spenders gets no entry |
| `TokenLedger.FromDict` | real_blockchain.py:262-283 | `from_dict` rebuilds every field, keeping exactly the owners that have at least one spender |
| `TokenLedger.DecodedInvertsToDict` | real_blockchain.py:245-283 | `from_dict(to_dict(t))` reproduces `t` whenever no owner has an empty allowance table |
| `RealChain.GenerateRandomBits` | real_blockchain.py:26-44 | eight binary digits per random byte, reading back as the bytes' big-endian value |
| `RealChain.NewKeyPair` | real_blockchain.py:93-108 | a given key is kept, a missing one is the hex rendering of the random bits; the public key is the hex digest of the private key |
| `RealChain.SignVerifies` | real_blockchain.py:110-134 | a key's own signature verifies, and a signature verifies under a key exactly when it is the one that key produces |
| `RealChain.OrElse` | real_blockchain.py:316 | `signature or fallback` is one of the two and is empty only when both are |
| `RealChain.NewBlock` | real_blockchain.py:288-317 | a new block has nonce 0, the given or fallback signature, and a hash equal to `_calculate_hash()` |
| `RealChain.Bump` | real_blockchain.py:343-344 | one loop round raises the nonce by one and reseals; nothing else changes |
| `RealChain.Mine` | real_blockchain.py:333-344 | a finished search meets the difficulty, changes only nonce and hash, never lowers the nonce, keeps a sealed block sealed, and every nonce it passed over failed the test |
| `RealChain.MineZeroDifficulty` | real_blockchain.py:340-342 | with difficulty 0 the block comes back with its nonce unchanged |
| `RealChain.MineFindsWithin` | real_blockchain.py:342-344 | if nonce `b.nonce + k` meets the target, `k` steps suffice and the search stops there or earlier |
| `RealChain.MineFuelMonotone` | real_blockchain.py:342-344 | more fuel never changes a search that already finished |
| `RealChain.IsChainValid` | real_blockchain.py:663-684 | true exactly when every block from index 1 on has its recomputed hash, links to its predecessor and meets the difficulty; block 0 is never checked |
| `RealChain.AppendedKeepsValid` | real_blockchain.py:663-684 | appending a sealed, linked, mined block keeps a valid chain valid |
| `RealChain.AppendedKeepsIndices` | real_blockchain.py:450-461 | appending the block with index `len(chain)` keeps every index equal to its position |
| `RealChain.Genesis` | real_blockchain.py:363-423 | one mined block with index 0 and 64 '0's as link, signed with the raw random bits; a token of 18 decimals whose whole supply belongs to the creator; the chain is valid |
| `RealChain.GenesisSupplyMatches` | real_blockchain.py:383-394 | the genesis token's balances add up to its supply |
| `RealChain.AddBlock` | real_blockchain.py:429-462 | one mined block is appended after the last one with the data (signed and extended with key and signature when a key is given); pending transactions, token and difficulty are unchanged |
| `RealChain.AddBlockPreservesValidity` | real_blockchain.py:429-462 | `add_block` keeps a valid chain valid and indices equal to positions |
| `RealChain.TransferToken` | real_blockchain.py:464-516 | refused exactly when the sender's balance is below `amount`, with the chain unchanged; otherwise the token transfer happens and a "token_transfer" record for `amount` is mined into the new last block |
| `RealChain.TransferTokenConserves` | real_blockchain.py:476-510 | a recorded transfer keeps balances adding up to the supply |
| `RealChain.MintTokens` | real_blockchain.py:530-582 | a genesis block whose data is not a dictionary raises; a caller other than the recorded creator is refused with nothing changed; the creator raises supply and the recipient's balance by `amount` and a mint record naming the new supply is mined |
| `RealChain.GenesisCreatorMayMint` | real_blockchain.py:543-547 | the creator key of a fresh chain is never refused |
| `RealChain.MintTokensKeepsSupplyMatched` | real_blockchain.py:553-557 | minting keeps balances adding up to the supply |
| `RealChain.AddTransaction` | real_blockchain.py:584-611 | a signed transaction carrying sender and public key is queued last; blocks and token are unchanged; the answer is the last index plus one |
| `RealChain.AddTransactionNamesNextBlock` | real_blockchain.py:611 | on a chain indexed by position the promised index is the next block's position |
| `RealChain.MinePendingTransactions` | real_blockchain.py:613-652 | one mined block holding every pending transaction in order followed by the reward is appended, and the pending list is emptied; the last transaction of the new block pays 1.0 from the system address "0" to the miner |
| `RealChain.MinePendingPreservesValidity` | real_blockchain.py:613-652 | mining pending transactions keeps a valid chain valid |
| `RealChain.ResolveConflicts` | real_blockchain.py:686-740 | for well-formed candidate records, the chain is replaced exactly when some candidate is longer and passes the link, hash and work checks; the replacement is one no other eligible candidate is longer than, and the first of that length; otherwise nothing changes |
| `QSharpIntegration.Mine` | qsharp_integration.py:205-218 | nonces 0..1000000 are tried in order; a result up to 1000000 hits and no smaller nonce did; otherwise 1000001 |
| `QSharpIntegration.EasyDifficultyHitsAtZero` | qsharp_integration.py:209-214 | a difficulty of 0 or less is hit at nonce 0 |
| `QSharpIntegration.HitIsMeetsTarget` | qsharp_integration.py:209-213 | the miner's `startswith` test is the ledgers' slice test |
| `QSharpIntegration.MineBlock` | qsharp_integration.py:395-398 | an empty or non-hex 16-character prefix raises; otherwise the search runs on its value with the guarantees of `mine` |
| `QSharpIntegration.Sign` | qsharp_integration.py:332-337 | eight signature bits per digest byte |
| `QSharpIntegration.SignThenVerify` | qsharp_integration.py:354-357 | a signature made with a key verifies under that key, and only that signature does |
| `QSharpIntegration.MismatchesBound` | qsharp_integration.py:180 | the mismatch count is at most the shorter key length and is zero exactly when the common prefixes agree |
| `QSharpIntegration.DetectEavesdropping` | qsharp_integration.py:176-181 | identical keys give 0.0; different keys with an empty one divide by zero; otherwise mismatches over a positive compared length, zero exactly when the common prefixes agree |
| `QSharpIntegration.LittleEndianBound` | qsharp_integration.py:390-392 | the packed value of `n` bits is below `2^n` |
| `QSharpIntegration.PackedKeyFits` | qsharp_integration.py:390-393 | at most 64 bits pack into a value sixteen hex digits can hold |
| `QSharpIntegration.NodeCommunicationKey` | qsharp_integration.py:386-393 | exactly 16 lower-case hex digits reading back as the first (up to) 64 bits packed least significant first |
| `QSharpIntegration.LeafHashes` | qsharp_integration.py:412 | one leaf hash per transaction |
| `QSharpIntegration.PadEven` | qsharp_integration.py:414-415 | an odd level gets its last hash once more; an even level is unchanged |
| `QSharpIntegration.NextLevel` | qsharp_integration.py:413-419 | one round maps a level of `n` hashes to `ceil(n / 2)` |
| `QSharpIntegration.OddLevelPairsLastWithItself` | qsharp_integration.py:414-419 | on an odd level the last hash is hashed with itself |
| `QSharpIntegration.SingleTransactionRoot` | qsharp_integration.py:412-420 | a single transaction's root is its own hash, never paired |
| `QSharpIntegration.HashPairs` | qsharp_integration.py:416-419 | the comprehension hashes neighbours two by two |
| `QSharpIntegration.CreateMerkleRoot` | qsharp_integration.py:410-420 | an empty list raises; otherwise the loop of rounds ends at the Merkle root of the leaf hashes |
| `QuantumChain.ChunksLength` | quantum_blockchain.py:65-71 | zero-filled chunks add up to the sum of the chunk sizes |
| `QuantumChain.GenerateRandomBits` | quantum_blockchain.py:25-76 | chunks of 1 to 16 bits, all but the last exactly 16, summing to `num_bits` (none for 0 or less); the result has one character per requested bit |
| `QuantumChain.NewBlock` | quantum_blockchain.py:187-228 | a new block is sealed and keeps the given signature, or the random one when none is given |
| `QuantumChain.Genesis` | quantum_blockchain.py:249-264 | index 0, 64 '0's as link, the random bits as signature, a "quantum_state" with the same value in hex; the chain is valid |
| `QuantumChain.AddBlock` | quantum_blockchain.py:272-290 | exactly one sealed block is appended with index `len(chain)` and the old last hash as link; old blocks are kept |
| `QuantumChain.AddBlockPreservesValidity` | quantum_blockchain.py:282-290 | `add_block` keeps a valid chain valid |
| `QuantumChain.IsChainValid` | quantum_blockchain.py:292-308 | true exactly when every block from index 1 on is sealed and linked; no proof-of-work test; genesis exempt |
| `QuantumChain.NewBlockSampled` | quantum_blockchain.py:207-228 | a block built on one run of `quantum_hash` carries the hash of that run's sample over its own fields, and keeps the given or random signature |
| `QuantumChain.AddBlockSampled` | quantum_blockchain.py:272-290 | `add_block` as written appends one block, linked to the old last hash, sealed with the hash of the run that built it |
| `QuantumChain.IsChainValidAsWritten` | quantum_blockchain.py:292-308 | true exactly when every block from index 1 on matches the hash of the run that rechecks it and is linked |
| `QuantumChain.AddedBlockPassesIffRunsAgree` | quantum_blockchain.py:158-182 | on a valid chain, the block just added passes the recheck exactly when the rechecking run's hash equals the sealing run's hash |
| `QuantumChain.FreshSampleRejectsSealedBlock` | quantum_blockchain.py:158-182 | two runs with different counts make `is_chain_valid` refuse a block `add_block` has just sealed |
| `QuantumChain.SeededRunsAgree` | quantum_blockchain.py:113-182 | when each run's sample is a fixed function of the hashed text, the check as written equals the deterministic `ChainValid` |
| `HostChain.PythonQuantumSignature` | quantum_blockchain_qsharp/host/app.py:69-74 | for a whole number of nibbles, exactly `num_bits / 4` lower-case hex digits carrying the value of the bits |
| `HostChain.Genesis` | quantum_blockchain_qsharp/host/app.py:36-67 | index 0, 64 '0's as link, the QTC data stored but the hash taken over `{"message": "Genesis"}` at a second clock reading; the one-block chain is valid |
| `HostChain.IsChainValid` | quantum_blockchain_qsharp/host/app.py:155-163 | true exactly when `is_valid` holds for every adjacent pair from index 1 on |
| `HostChain.AddBlockAsWritten` | quantum_blockchain_qsharp/host/app.py:111-139 | the candidate has index `len(chain)` and the last hash as link; it is appended exactly when its hash at the hashing time equals its hash at the stored time, otherwise `None` with the chain unchanged |
| `HostChain.TwoClocksRejectValidBlock` | quantum_blockchain_qsharp/host/app.py:125-153 | two different clock readings make `add_block` reject a block |
| `HostChain.AddBlock` | quantum_blockchain_qsharp/host/app.py:111-139 | with one clock reading the block always passes `is_valid` and is appended |
| `HostChain.AppendValid` | quantum_blockchain_qsharp/host/app.py:155-163 | appending a block that passes `is_valid` against the last one keeps the chain valid |
| `HostChain.AddBlockPreservesValidity` | quantum_blockchain_qsharp/host/app.py:136-139 | the single-clock `add_block` keeps a valid chain valid |
| `HostChain.AddBlockAsWrittenPreservesValidity` | quantum_blockchain_qsharp/host/app.py:136-139 | whatever `add_block` as written decides, a valid chain stays valid |
| `Pqec.BoundedAppend` | quantum_blockchain_qsharp/host/pqec_app.py:38-39 | an append to a `maxlen=100` deque puts the entry last and keeps the newest `min(n + 1, 100) - 1` old entries in order |
| `Pqec.Replayed` | quantum_blockchain_qsharp/host/pqec_app.py:38-39 | a bounded deque never holds more than 100 entries |
| `Pqec.ReplayedKeepsLatest` | quantum_blockchain_qsharp/host/pqec_app.py:38-39 | after any appends the deque holds exactly the last `min(n, 100)` entries, oldest first |
| `Pqec.ReplayedShort` | quantum_blockchain_qsharp/host/pqec_app.py:38-39 | up to 100 appends nothing is dropped: the deque is everything appended, in order |
| `Pqec.ReplayedLong` | quantum_blockchain_qsharp/host/pqec_app.py:38-39 | past 100 appends the deque is exactly the last 100 entries appended, in order |
| `Pqec.NewStats` | quantum_blockchain_qsharp/host/pqec_app.py:35-40 | zero counters and empty queues |
| `Pqec.AddMiningTime` | quantum_blockchain_qsharp/host/pqec_app.py:42-45 | both proof counters go up by one, the time is queued last, nothing else changes |
| `Pqec.AddVerification` | quantum_blockchain_qsharp/host/pqec_app.py:47-48 | only the verification queue changes, gaining the result last |
| `Pqec.SuccessRate` | quantum_blockchain_qsharp/host/pqec_app.py:54-56 | the success rate is 1 after any mine and 0 before, since the two counters are always equal |
| `Pqec.Replay` | quantum_blockchain_qsharp/host/pqec_app.py:344-345 | any run of the mine and verify routes keeps the counters equal and both queues within 100 entries |
| `Pqec.ReplayQueues` | quantum_blockchain_qsharp/host/pqec_app.py:344-387 | each queue is the bounded replay of its own kind of event, and proofs and blocks both count the mines |
| `Pqec.StatsHoldLatest` | quantum_blockchain_qsharp/host/pqec_app.py:38-48 | after any run of routes the queues hold the last `min(n, 100)` mining times and verification results in order, and `total_proofs == successful_proofs` |
| `Pqec.SyndromeDetection` | quantum_blockchain_qsharp/host/pqec_app.py:157-165 | the syndrome is non-empty exactly for the supported codes |
| `Pqec.ApplyShorCode` | quantum_blockchain_qsharp/host/pqec_app.py:77-100 | always reports success; without an error the state is unchanged, with one it gains "E" or has exactly the drawn bit toggled |
| `Pqec.ApplySurfaceCode` | quantum_blockchain_qsharp/host/pqec_app.py:103-120 | always reports success; noise touches at most the first three positions |
| `Pqec.ApplyBitFlipCodeAsWritten` | quantum_blockchain_qsharp/host/pqec_app.py:123-142 | raises exactly when no error is drawn; otherwise success with a state of the same length |
| `Pqec.ApplyBitFlipCode` | quantum_blockchain_qsharp/host/pqec_app.py:123-142 | the corrected code always succeeds and leaves an error-free state untouched |
| `Pqec.BitFlipAgreesOnErrorPath` | quantum_blockchain_qsharp/host/pqec_app.py:128-140 | the written and corrected bit-flip code agree whenever the written one returns |
| `Pqec.SimulateErrorAsWritten` | quantum_blockchain_qsharp/host/pqec_app.py:178-203 | raises exactly for "BitFlip" when no error is drawn; otherwise an error result exactly for unsupported code types |
| `Pqec.BitFlipAtZeroProbabilityRaises` | quantum_blockchain_qsharp/host/pqec_app.py:128-142 | with error probability 0 the written bit-flip simulation raises on every draw |
| `Pqec.SimulateError` | quantum_blockchain_qsharp/host/pqec_app.py:178-203 | an error result exactly for code types outside {Shor, Surface, BitFlip}; otherwise the all-zero 16-bit original state, the code type, `str(error_probability)` and a successful correction |
| `Pqec.SimulateErrorAgrees` | quantum_blockchain_qsharp/host/pqec_app.py:178-203 | wherever the written `simulate_error` returns, it returns what the corrected one does |
| `Pqec.GenerateProof` | quantum_blockchain_qsharp/host/pqec_app.py:228-232 | exactly 64 lower-case hex digits carrying the value of the 256 drawn bits |
| `Pqec.Seal` | quantum_blockchain_qsharp/host/pqec_app.py:224 | the hash is computed last over the other fields, which are unchanged |
| `Pqec.Genesis` | quantum_blockchain_qsharp/host/pqec_app.py:214-226 | data "PQEC Genesis Block", 64 '0's as link, the proof for index 0; the chain is well formed |
| `Pqec.MineBlock` | quantum_blockchain_qsharp/host/pqec_app.py:267-305 | exactly one sealed block is appended with index `len(chain)`, the last hash as link and the generated proof; the block does not depend on `difficulty` |
| `Pqec.AppendWellFormed` | quantum_blockchain_qsharp/host/pqec_app.py:287-297 | a sealed block with the next index and the last hash as link extends a well-formed chain |
| `Pqec.MineBlockKeepsWellFormed` | quantum_blockchain_qsharp/host/pqec_app.py:267-297 | `mine_block` keeps the chain well formed |
| `Pqec.VerifyProof` | quantum_blockchain_qsharp/host/pqec_app.py:307-323 | valid exactly when the first `d` characters of the proof's hash are all '0' (for `d >= 0`), difficulty 0 always valid; the reported hash is its first 16 characters and "..." |
| `UnifiedApi.QuantumSignature` | quantum_blockchain_qsharp/host/unified_api.py:55-57 | exactly `bits // 4` characters (none for fewer than 4 bits), each the drawn hex digit |
| `UnifiedApi.IsValid` | quantum_blockchain_qsharp/host/unified_api.py:101-108 | true exactly when every block from index 1 on links to its predecessor; no hash is recomputed |
| `UnifiedApi.RewrittenDataStaysLinked` | quantum_blockchain_qsharp/host/unified_api.py:101-108 | rewriting any block's data leaves the chain valid, since no hash is rechecked |
| `UnifiedApi.Genesis` | quantum_blockchain_qsharp/host/unified_api.py:65-77 | index 0, 64 '0's as link, empty proof, hash of `{"genesis": 0}`; the chain is linked |
| `UnifiedApi.AddBlock` | quantum_blockchain_qsharp/host/unified_api.py:79-99 | one block appended with index `len(chain)`, the previous hash as link, the given data and proof, hashed over index, data, link and proof |
| `UnifiedApi.AddBlockKeepsLinked` | quantum_blockchain_qsharp/host/unified_api.py:79-108 | `add_block` keeps a linked chain linked |
| `UnifiedApi.NewConsensus` | quantum_blockchain_qsharp/host/unified_api.py:114-118 | zero counters and difficulty 3 |
| `UnifiedApi.Correction` | quantum_blockchain_qsharp/host/unified_api.py:152-155 | one simulated correction is an operation name and a digit, never containing a colon |
| `UnifiedApi.Corrections` | quantum_blockchain_qsharp/host/unified_api.py:147-148 | the corrections appended contain no colon and are at least two characters each |
| `UnifiedApi.Verify` | quantum_blockchain_qsharp/host/unified_api.py:157-164 | accepted exactly when the proof has at least two colons and contains `EC:<d>:`; fewer than three parts is always rejected |
| `UnifiedApi.MarkerColons` | quantum_blockchain_qsharp/host/unified_api.py:146 | the marker `EC:<d>:` holds exactly two colons for every integer difficulty |
| `UnifiedApi.ProofShapeVerifies` | quantum_blockchain_qsharp/host/unified_api.py:150-164 | every string of the form `hash:EC:<d>:tail` verifies at difficulty `d` |
| `UnifiedApi.BareMarkerVerifies` | quantum_blockchain_qsharp/host/unified_api.py:157-164 | the marker alone already verifies |
| `UnifiedApi.AppendCorrections` | quantum_blockchain_qsharp/host/unified_api.py:147-148 | the loop appends exactly the drawn corrections, in order |
| `UnifiedApi.GeneratePqecProof` | quantum_blockchain_qsharp/host/unified_api.py:141-150 | the proof is the hex digest, a colon, the marker and `4 * d` corrections, and it verifies at difficulty `d` |
| `UnifiedApi.Mine` | quantum_blockchain_qsharp/host/unified_api.py:120-139 | both counters go up by one and stay equal, the elapsed time is added, the code type is one of the three, and the returned proof verifies |
| `UnifiedApi.RouteResponse` | quantum_blockchain_qsharp/host/unified_api.py:209-213 | an exception in `handle_action` becomes error code 3; an answer is passed through |
| `UnifiedApi.GetBlock` | quantum_blockchain_qsharp/host/unified_api.py:241-245 | an integer index in range answers with the block, one outside with code 2; a non-number raises; every answer has code 0 or 2 and version "1.0" |
| `UnifiedApi.HandleAction` | quantum_blockchain_qsharp/host/unified_api.py:216-397 | an action gets code 1 exactly when it is unknown, with the action named, and a known action answers only with code 0 or 2; every answer carries version "1.0" (`API_VERSION`, lines 22-44); `get_block` defaults its index to 0; `validate_chain` reports `is_valid`; `pqec_verify` reports `verify` |
| `UnifiedApi.GetBlockCodes` | quantum_blockchain_qsharp/host/unified_api.py:241-245 | `get_block` answers code 0 with the block exactly for indices in range, and code 2 exactly for the others |

## Left out

- Hash and serialisation internals: SHA-256, `json.dumps`, `str()` and Qiskit's `quantum_hash` are fields of the `Crypto` bundle. The hex digest and the raw digest of the same input are separate fields and are not linked.
- All Q# and Qiskit branches (`QSHARP_AVAILABLE`, `qsharp.compile`/`call`) and the circuit simulation inside `quantum_hash`, because they are foreign code. Circuit measurements are the `measure` parameter of `QuantumChain.GenerateRandomBits`.
- Randomness and clocks: every `random`, `os.urandom`, `secrets` draw and `time.time()` reading is a parameter. The seeding `random.seed(index + int(time.time()))` of `_generate_proof` is not modelled; its 256 drawn digits are a parameter.
- `CryptoUtils.secure_hash` and `get_quantum_timestamp`, which nothing in the modelled core calls.
- `RealChain.Mine`: the loop runs without bound in Python; here it takes `fuel`, and `None` means the budget ran out while still searching. `RealChain.MineFindsWithin` states that enough fuel always finishes.
- The unused `difficulty` attribute of real_blockchain.py's `Block`, and `register_node` with the `nodes` set, which nothing reads.
- `BlockchainNode` (sockets, threads, `input()`), `save_to_file`/`load_from_file`, the Flask routes apart from the parts modelled by `UnifiedApi.RouteResponse` (the `except` branch of `/api/v1/query`) and `Pqec.Replay`, `Pqec.ReplayQueues` and `Pqec.StatsHoldLatest` (the statistics updates of the mine and verify routes), the Flask `app.py` at the repository root, `demo.py` and `visualize_quantum_blockchain.py`, because they are I/O glue.
- `QuantumChain.IsChainValid`, `QuantumChain.AddBlockPreservesValidity` and `QuantumChain.Genesis` treat `quantum_hash` as a fixed function of its input. In Python it is not: the unseeded 1024-shot run can render a different probability string each time. The `*Sampled` members and `QuantumChain.IsChainValidAsWritten` model the sampled hash, and the Findings table records the gap. The rendering of counts into the probability string is not modelled: the string itself is the parameter.
- Dictionary order: `Oracles.Json` holds a dict as a `map`, which has no insertion order. Python's `str(dict)` lists keys in insertion order, so the `str()` field of `Crypto` sees less than Python does. This affects `UnifiedApi.QuantumHash` and `UnifiedApi.ProofBase` on user data and `QSharpIntegration.LeafHashes` on transactions. No stated property depends on the order.
- `RealChain.ResolveConflicts` and `TokenLedger.FromDict`: their inputs are typed records, not dictionaries. Every key is present, a block's signature is a string and its timestamp a number. Python looks up each key of a longer candidate's blocks (real_blockchain.py:707-715) and of a token dictionary (real_blockchain.py:272-282) without a `try`. So a missing key raises `KeyError`, and a non-dict entry raises `TypeError`. Either aborts the whole call, and no earlier qualifying candidate is adopted. A JSON `null` signature, which `None or bits` would replace, cannot be given either. That raising path is not modelled.
- Read-insertion of `defaultdict`: Python inserts a zero entry on every read of a missing balance or allowance. Here reads never insert, so a refused operation returns the token exactly as it was.
- `TokenLedger.DecodedInvertsToDict`: an owner whose spender table is empty disappears in the round trip, so the round trip is stated for tokens without such owners. `TokenLedger.FromDict` states the general case.
- Float arithmetic: the `get_stats` averages and rates, `round(..., 4)`, and the division inside `detect_eavesdropping`. Times are reals and their differences are exact.
- `Pqec.SuccessRate`: Python returns the int `0` when no proof was made and rounds to four places; here the result is `0.0` or `1.0`.
- `Pqec.MineBlock`: the reported mining time is the exact difference of the two clock readings, without `round(..., 4)`.
- `QSharpIntegration.DetectEavesdropping`: the result is the pair (mismatches, compared length), or the division error, rather than the float quotient.
- `QSharpIntegration.MineBlock`: prefixes that Python's `int(..., 16)` also accepts (sign, `0x`, underscores, surrounding spaces) are treated as errors. Block hashes are hex digests, so they never have such prefixes.
- `Radix.BitstringToHex`, `HostChain.PythonQuantumSignature` and `Pqec.GenerateProof` require a non-empty binary string: `int('', 2)` raises, and every caller passes 128 or 256 random binary digits.
- `HostChain.PythonQuantumSignature`: the exact length is stated only for bit counts divisible by four. The host always asks for 256 bits.
- `Pqec.GenerateProof`: the 64-digit width is stated for draws of at most 256 digits, and `_generate_proof` always draws exactly 256.
- `UnifiedApi.HandleAction`: `get_blocks`, `add_block`, `get_transactions`, `pqec_mine`, `pqec_stats`, `pqec_codes`, `pqec_simulate_error`, `quantum_generate_signature`, `quantum_hash`, `quantum_random` and `search` return `None`. They draw random numbers, change state or only format output. The chain and consensus operations they call are modelled on their own: `UnifiedApi.AddBlock` and `UnifiedApi.Mine`.
- `UnifiedApi.QuantumHash`: the 16 random hex digits that `_quantum_hash` mixes in are a parameter, so the hash is a function of the data and that draw.
- `UnifiedApi.GetBlock`: Python's `bool` is an `int`, so `True`/`False` index blocks 1/0. A float index compares and then fails as a list index. These two cases are modelled; other exotic index types all raise.

## Findings

| source | as written | input that shows it | evidently intended | confidence | as-written member | corrected member |
|---|---|---|---|---|---|---|
| quantum_blockchain_qsharp/host/app.py:125-136 | `add_block` stores `str(time.time())` as the timestamp but hashes a second `time.time()` reading, and `is_valid` recomputes the hash from the stored one, so the new block is refused whenever the two readings differ | stored 1.0, hashed 2.0, with a serialisation that records the timestamp (`HostChain.TwoClocksRejectValidBlock`) | one clock reading used for both, so every new block passes `is_valid` and is appended | not executed | `HostChain.AddBlockAsWritten` | `HostChain.AddBlock` |
| quantum_blockchain_qsharp/host/pqec_app.py:123-142 | `apply_bitflip_code` assigns `corrected` only when an error is drawn, so the error-free `return original, corrected, True` raises `UnboundLocalError` and `simulate_error("BitFlip", p)` fails | `error_probability` 0.0: `random.random() < 0.0` never holds, so every call raises (`Pqec.BitFlipAtZeroProbabilityRaises`) | return the untouched state, as the Shor and Surface codes do, so the simulation always reports a successful correction | not executed | `Pqec.SimulateErrorAsWritten` | `Pqec.SimulateError` |
| quantum_blockchain.py:158-182 | `quantum_hash` runs the circuit for 1024 shots without a simulator seed (`np.random.seed` at line 117 fixes only the gates), and the probability string read from the counts enters the hash; `is_chain_valid` (line 299) reruns it, so a block can fail against the hash it was sealed with | a block sealed on a run rendering "00000001" and rechecked on one rendering "00000010" (`QuantumChain.FreshSampleRejectsSealedBlock`) | a deterministic hash (the counts are sorted at line 168 to make the result deterministic), so a sealed block always passes the recheck | not executed | `QuantumChain.IsChainValidAsWritten` | `QuantumChain.IsChainValid` |
