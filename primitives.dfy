/** The cryptographic primitives the signing engine calls into. They are
    library code (the blake3 and ed25519-dalek crates), so the model takes
    them as a parameter, a `Suite` of functions that promise only the sizes
    of what they return: every property proved over a suite holds for the
    real primitives whatever they compute. */
module Primitives {
  import opened Common

  type Bytes32 = s: seq<byte> | |s| == 32 witness seq(32, _ => 0)
  type Bytes64 = s: seq<byte> | |s| == 64 witness seq(64, _ => 0)

  datatype Suite = Suite(
    keyedHash: (Bytes32, seq<byte>) -> Bytes32,      // blake3::keyed_hash(key, message)
    publicKey: Bytes32 -> Bytes32,                   // SigningKey::verifying_key().to_bytes()
    pointValid: Bytes32 -> bool,                     // the point check inside VerifyingKey::try_from
    sign: (Bytes32, seq<byte>) -> Bytes64,           // SigningKey::sign(message).to_bytes()
    verify: (Bytes32, seq<byte>, Bytes64) -> bool)   // VerifyingKey::verify(message, signature).is_ok()

  /** What the ed25519 library guarantees and this model takes as given:
      the public half of any secret key is a valid point, and a signature
      made with a secret key verifies under its public half. */
  ghost predicate Ed25519Correct(suite: Suite) {
    && (forall sk: Bytes32 :: suite.pointValid(suite.publicKey(sk)))
    && (forall sk: Bytes32, msg: seq<byte> :: suite.verify(suite.publicKey(sk), msg, suite.sign(sk, msg)))
  }
}
