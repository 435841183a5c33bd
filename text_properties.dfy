/** What the signing engine (src/process/text.rs) promises, stated over the
    model in text.dfy: key-slicing and length rules, verification answering
    `false` rather than failing, which failure wins when several are
    present, the shape of the signing output, and the sign/verify round
    trips, including the two unit tests of the source file. */
module TextProperties {
  import opened Common
  import opened Primitives
  import opened Files
  import opened Text
  import TextFormat
  import Base64Url
  import Ascii

  // ---------------------------------------------------------------------
  // Key loading

  /** Blake3 keeps the first 32 bytes of the key file and ignores the rest. */
  lemma Blake3KeyIsPrefix(key: seq<byte>, trailing: seq<byte>)
    requires |key| == 32
    ensures Blake3TryNew(key + trailing) == Ok(Blake3(key))
  {
    assert (key + trailing)[..32] == key;
  }

  /** Loading a Blake3 key file keeps its first 32 bytes: a file holding a
      32-byte key followed by anything loads as that key. */
  lemma Blake3LoadKeepsPrefix(fs: Fs, path: string, key: seq<byte>, trailing: seq<byte>)
    requires |key| == 32
    requires path in fs.files && fs.files[path] == Node(key + trailing, true)
    ensures Blake3Load(fs, path) == Ok(Blake3(key))
  {
    Blake3KeyIsPrefix(key, trailing);
  }

  // ---------------------------------------------------------------------
  // Verification answers

  /** Blake3 verification, once the key and the input are there, never
      fails: it is true exactly when `sig` is the keyed hash of the whole
      input, so a signature of any other length is simply false. */
  lemma Blake3VerifyIsEquality(suite: Suite, fs: Fs, input: string, keyPath: string, sig: seq<byte>)
    requires Blake3Load(fs, keyPath).Ok?
    requires GetReader(fs, input).Ok? && GetReader(fs, input).value.readable
    ensures VerifyOutcome(suite, fs, input, keyPath, TextFormat.Blake3, sig).Ok?
    ensures VerifyOutcome(suite, fs, input, keyPath, TextFormat.Blake3, sig).value
            <==> sig == suite.keyedHash(Blake3Load(fs, keyPath).value.key, GetReader(fs, input).value.bytes)
    ensures |sig| != 32 ==> VerifyOutcome(suite, fs, input, keyPath, TextFormat.Blake3, sig) == Ok(false)
  {
  }

  /** Ed25519 verification reads the whole input before it looks at the
      signature: an unreadable input is an I/O error whatever the signature,
      and with a readable input a signature that is not 64 bytes is an
      error, not `false`. */
  lemma Ed25519VerifyChecksLengthAfterReading(suite: Suite, fs: Fs, input: string, keyPath: string, sig: seq<byte>)
    requires Ed25519VerifierLoad(suite, fs, keyPath).Ok?
    requires GetReader(fs, input).Ok?
    ensures !GetReader(fs, input).value.readable ==>
              VerifyOutcome(suite, fs, input, keyPath, TextFormat.Ed25519, sig) == Err(Io)
    ensures GetReader(fs, input).value.readable && |sig| != 64 ==>
              VerifyOutcome(suite, fs, input, keyPath, TextFormat.Ed25519, sig) == Err(BadLength)
    ensures GetReader(fs, input).value.readable && |sig| == 64 ==>
              VerifyOutcome(suite, fs, input, keyPath, TextFormat.Ed25519, sig)
              == Ok(suite.verify(Ed25519VerifierLoad(suite, fs, keyPath).value.key, GetReader(fs, input).value.bytes, sig))
  {
  }

  // ---------------------------------------------------------------------
  // Which failure wins

  /** `process_verify` opens the input first but loads the key before it
      looks at whether opening worked: a key that fails to load decides the
      outcome, whatever the input and the signature. */
  lemma VerifyKeyFailureComesFirst(suite: Suite, fs: Fs, input: string, keyPath: string,
                                   format: TextFormat.TextSignFormat, sig: seq<byte>)
    requires format.Blake3? ==> !Blake3Load(fs, keyPath).Ok?
    requires format.Ed25519? ==> !Ed25519VerifierLoad(suite, fs, keyPath).Ok?
    ensures format.Blake3? ==>
              VerifyOutcome(suite, fs, input, keyPath, format, sig) == Blake3Load(fs, keyPath).PropagateFailure()
    ensures format.Ed25519? ==>
              VerifyOutcome(suite, fs, input, keyPath, format, sig) == Ed25519VerifierLoad(suite, fs, keyPath).PropagateFailure()
  {
  }

  /** A Blake3 key file shorter than 32 bytes makes `process_verify` panic
      even when the input does not exist. */
  lemma VerifyShortBlake3KeyPanics(suite: Suite, fs: Fs, input: string, keyPath: string, sig: seq<byte>)
    requires ReadFile(fs, keyPath).Ok? && |ReadFile(fs, keyPath).value| < 32
    ensures VerifyOutcome(suite, fs, input, keyPath, TextFormat.Blake3, sig).Panic?
  {
  }

  /** `process_sign` checks the input first: when it cannot be opened the
      outcome is an I/O error, whatever the key file holds. */
  lemma SignInputFailureComesFirst(suite: Suite, fs: Fs, input: string, keyPath: string, format: TextFormat.TextSignFormat)
    requires !GetReader(fs, input).Ok?
    ensures SignOutcome(suite, fs, input, keyPath, format) == Err(Io)
  {
  }

  // ---------------------------------------------------------------------
  // The signing output

  /** The raw signature is 32 bytes for Blake3 and 64 for Ed25519. */
  lemma SignRawLength(suite: Suite, fs: Fs, input: string, keyPath: string, format: TextFormat.TextSignFormat)
    requires SignRaw(suite, fs, input, keyPath, format).Ok?
    ensures |SignRaw(suite, fs, input, keyPath, format).value| == if format.Blake3? then 32 else 64
  {
  }

  /** `process_sign` returns the unpadded URL-safe base64 text of the raw
      signature: 43 characters for Blake3, 86 for Ed25519, all from the
      URL-safe alphabet, and decoding it gives the raw signature back. */
  lemma SignOutputIsBase64Url(suite: Suite, fs: Fs, input: string, keyPath: string, format: TextFormat.TextSignFormat)
    requires SignOutcome(suite, fs, input, keyPath, format).Ok?
    ensures var text := SignOutcome(suite, fs, input, keyPath, format).value;
            && SignRaw(suite, fs, input, keyPath, format).Ok?
            && |text| == (if format.Blake3? then 43 else 86)
            && Base64Url.IsUrlSafe(text)
            && Base64Url.Decodable(text)
            && Base64Url.Decode(text) == SignRaw(suite, fs, input, keyPath, format).value
  {
    SignRawLength(suite, fs, input, keyPath, format);
    Base64Url.DecodeEncode(SignRaw(suite, fs, input, keyPath, format).value);
  }

  /** Signing never decodes on the way back: the text `process_sign`
      returns, passed to `process_verify` as its bytes (as the verify
      command does with its signature argument), never verifies, under
      either algorithm and whatever the files hold. Blake3 compares 32 bytes
      with 43 or 86 and answers false; Ed25519 rejects a signature that is
      not 64 bytes. */
  lemma EncodedSignatureNeverVerifies(suite: Suite, fs: Fs, input: string, keyPath: string, format: TextFormat.TextSignFormat,
                                      fs': Fs, input': string, keyPath': string, format': TextFormat.TextSignFormat)
    requires SignOutcome(suite, fs, input, keyPath, format).Ok?
    ensures VerifyOutcome(suite, fs', input', keyPath', format', Ascii.Utf8(SignOutcome(suite, fs, input, keyPath, format).value))
            != Ok(true)
  {
    var text := SignOutcome(suite, fs, input, keyPath, format).value;
    SignOutputIsBase64Url(suite, fs, input, keyPath, format);
    assert Ascii.IsAscii(text) by {
      forall i | 0 <= i < |text| ensures text[i] as int < 128 {
        assert Base64Url.IsUrlSafeChar(text[i]);
      }
    }
    var sig := Ascii.Utf8(text);
    assert |sig| == 43 || |sig| == 86;
  }

  // ---------------------------------------------------------------------
  // Round trips

  /** With the same Blake3 key file and the same input, the raw signature
      `process_sign` computes verifies. */
  lemma Blake3SignThenVerify(suite: Suite, fs: Fs, input: string, keyPath: string)
    requires SignRaw(suite, fs, input, keyPath, TextFormat.Blake3).Ok?
    ensures VerifyOutcome(suite, fs, input, keyPath, TextFormat.Blake3, SignRaw(suite, fs, input, keyPath, TextFormat.Blake3).value)
            == Ok(true)
  {
  }

  /** A raw Ed25519 signature made with a secret key file verifies under a
      file holding the matching public key, over the same input. */
  lemma Ed25519SignThenVerify(suite: Suite, fs: Fs, input: string, skPath: string, pkPath: string)
    requires Ed25519Correct(suite)
    requires SignRaw(suite, fs, input, skPath, TextFormat.Ed25519).Ok?
    requires ReadFile(fs, pkPath) == Ok(suite.publicKey(Ed25519SignerLoad(fs, skPath).value.key))
    ensures VerifyOutcome(suite, fs, input, pkPath, TextFormat.Ed25519, SignRaw(suite, fs, input, skPath, TextFormat.Ed25519).value)
            == Ok(true)
  {
    var sk := Ed25519SignerLoad(fs, skPath).value.key;
    assert suite.pointValid(suite.publicKey(sk));
    var msg := GetReader(fs, input).value.bytes;
    assert suite.verify(suite.publicKey(sk), msg, suite.sign(sk, msg));
  }

  /** The buffers of `process_generate` for Ed25519, written to a secret
      and a public key file, sign and verify any readable input. */
  lemma GeneratedEd25519KeysVerify(suite: Suite, fs: Fs, input: string, skPath: string, pkPath: string, keys: seq<seq<byte>>)
    requires Ed25519Correct(suite)
    requires |keys| == 2 && |keys[0]| == 32 && keys[1] == suite.publicKey(keys[0])
    requires skPath in fs.files && fs.files[skPath] == Node(keys[0], true)
    requires pkPath in fs.files && fs.files[pkPath] == Node(keys[1], true)
    requires GetReader(fs, input).Ok? && GetReader(fs, input).value.readable
    ensures SignRaw(suite, fs, input, skPath, TextFormat.Ed25519).Ok?
    ensures VerifyOutcome(suite, fs, input, pkPath, TextFormat.Ed25519, SignRaw(suite, fs, input, skPath, TextFormat.Ed25519).value)
            == Ok(true)
  {
    Ed25519SignThenVerify(suite, fs, input, skPath, pkPath);
  }

  /** The buffer of `process_generate` for Blake3, written to a key file,
      signs and verifies any readable input, and its signature is the keyed
      hash under exactly that buffer. */
  lemma GeneratedBlake3KeyVerifies(suite: Suite, fs: Fs, input: string, keyPath: string, keys: seq<seq<byte>>)
    requires |keys| == 1 && |keys[0]| == 32
    requires keyPath in fs.files && fs.files[keyPath] == Node(keys[0], true)
    requires GetReader(fs, input).Ok? && GetReader(fs, input).value.readable
    ensures SignRaw(suite, fs, input, keyPath, TextFormat.Blake3)
            == Ok(suite.keyedHash(keys[0], GetReader(fs, input).value.bytes))
    ensures VerifyOutcome(suite, fs, input, keyPath, TextFormat.Blake3, SignRaw(suite, fs, input, keyPath, TextFormat.Blake3).value)
            == Ok(true)
  {
    Blake3KeyIsPrefix(keys[0], []);
    assert keys[0] + [] == keys[0];
  }

  // ---------------------------------------------------------------------
  // The unit tests of src/process/text.rs

  /** test_blake3_sign_verify: a loaded Blake3 key signs a message read from
      one reader and verifies it read from another. */
  method TestBlake3SignVerify(suite: Suite, fs: Fs, keyPath: string, data: seq<byte>) returns (r: Result<bool>)
    requires Blake3Load(fs, keyPath).Ok?
    ensures r == Ok(true)
  {
    var blake3 := Blake3Load(fs, keyPath).value;
    var signing := new Reader(Node(data, true));
    var sig := blake3.Sign(suite, signing);
    var verifying := new Reader(Node(data, true));
    r := blake3.Verify(suite, verifying, sig.value);
  }

  /** test_ed25519_sign_verify: a signature made with the secret key file
      verifies under the public key file that matches it. */
  method TestEd25519SignVerify(suite: Suite, fs: Fs, skPath: string, pkPath: string, data: seq<byte>)
    returns (r: Result<bool>)
    requires Ed25519Correct(suite)
    requires Ed25519SignerLoad(fs, skPath).Ok?
    requires ReadFile(fs, pkPath) == Ok(suite.publicKey(Ed25519SignerLoad(fs, skPath).value.key))
    ensures r == Ok(true)
  {
    var sk := Ed25519SignerLoad(fs, skPath).value;
    assert suite.pointValid(suite.publicKey(sk.key));
    var pk := Ed25519VerifierLoad(suite, fs, pkPath).value;
    var signing := new Reader(Node(data, true));
    var sig := sk.Sign(suite, signing);
    var verifying := new Reader(Node(data, true));
    assert suite.verify(suite.publicKey(sk.key), data, suite.sign(sk.key, data));
    r := pk.Verify(suite, verifying, sig.value);
  }
}
