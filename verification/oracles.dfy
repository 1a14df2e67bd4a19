/**
 * The values the ledgers store and the functions they call but this model does not look inside:
 * SHA-256, `json.dumps(..., sort_keys=True)`, Python's `str()` and the Qiskit-based
 * `quantum_hash`. Every operation that hashes takes a `Crypto` bundle, so each result holds
 * for every choice of these functions.
 */
module Oracles {
  import opened Text
  import opened Radix

  /** A JSON-shaped Python value (`None`, bool, int, float, str, list, dict). */
  datatype Json =
    | Null
    | Bool(b: bool)
    | Int(i: int)
    | Float(f: real)
    | Str(s: string)
    | Arr(items: seq<Json>)
    | Obj(fields: map<string, Json>)

  datatype Crypto = Crypto(
    /** `hashlib.sha256(s.encode()).hexdigest()` */
    hexdigest: string -> string,
    /** `hashlib.sha256(s.encode()).digest()`, the same hash as raw bytes */
    digest: string -> seq<Byte>,
    /** `json.dumps(v, sort_keys=True)` */
    dumps: Json -> string,
    /** `str(v)` */
    pyStr: Json -> string,
    /**
     * `QuantumHash.quantum_hash(s)`: a circuit simulation treated as a fixed function; the
     * sampled run it really is lives in `QuantumChain.SampledQuantumHash`
     */
    quantumHash: string -> string)

  /** `hashlib.sha256(s.encode()).hexdigest()` */
  function HexDigest(c: Crypto, s: string): string
  {
    c.hexdigest(s)
  }

  /**
   * The classical fallback hash of the Q# host services:
   * `sha256(s + sha256(s)[:16])` over the sorted-key serialisation `s`.
   */
  function HybridHash(c: Crypto, s: string): string
  {
    HexDigest(c, s + PyTake(HexDigest(c, s), 16))
  }
}
