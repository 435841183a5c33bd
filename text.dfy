/** The text signing and verification engine (src/process/text.rs): key
    loaders, the Blake3 keyed-hash and Ed25519 signers and verifiers, key
    generation, and the `process_*` dispatchers. */
module Text {
  import opened Common
  import opened Primitives
  import opened Files
  import TextFormat
  import Base64Url
  import GenPass

  // ---------------------------------------------------------------------
  // Keys and loaders

  /** A Blake3 signer and verifier: one 32-byte shared key. */
  datatype Blake3 = Blake3(key: Bytes32) {

    /** The signature of a message: its keyed hash. */
    function Hash(suite: Suite, msg: seq<byte>): Bytes32 {
      suite.keyedHash(key, msg)
    }

    /** TextSign: read the whole input, return its keyed hash. */
    method Sign(suite: Suite, reader: Reader) returns (r: Result<seq<byte>>)
      modifies reader
      ensures r == if reader.readable then Ok(Hash(suite, old(reader.pending))) else Err(Io)
      ensures reader.readable ==> reader.pending == []
    {
      var buf :- reader.ReadToEnd();
      r := Ok(Hash(suite, buf));
    }

    /** TextVerify: read the whole input; true exactly when `sig` is its
        keyed hash. */
    method Verify(suite: Suite, reader: Reader, sig: seq<byte>) returns (r: Result<bool>)
      modifies reader
      ensures r == if reader.readable then Ok(Hash(suite, old(reader.pending)) == sig) else Err(Io)
      ensures reader.readable ==> reader.pending == []
    {
      var buf :- reader.ReadToEnd();
      r := Ok(Hash(suite, buf) == sig);
    }
  }

  /** `Blake3::try_new`: the first 32 bytes are the key; a shorter slice
      panics at `&key[..32]`. */
  function Blake3TryNew(key: seq<byte>): (r: Result<Blake3>)
    ensures r.Panic? <==> |key| < 32
    ensures r.Ok? ==> r.value.key == key[..32]
    ensures !r.Err?
  {
    if |key| < 32 then Panic("range end index 32 out of range for slice")
    else Ok(Blake3(key[..32]))
  }

  /** `Blake3::load`: read the whole key file, then `try_new` on its bytes;
      a missing or unreadable file is an I/O error. */
  function Blake3Load(fs: Fs, path: string): (r: Result<Blake3>)
    ensures ReadFile(fs, path).Ok? ==> r == Blake3TryNew(ReadFile(fs, path).value)
    ensures !ReadFile(fs, path).Ok? ==> r == Err(Io)
  {
    var bytes :- ReadFile(fs, path);
    Blake3TryNew(bytes)
  }

  /** An Ed25519 signer: the 32-byte secret key. */
  datatype Ed25519Signer = Ed25519Signer(key: Bytes32) {

    function Signature(suite: Suite, msg: seq<byte>): Bytes64 {
      suite.sign(key, msg)
    }

    /** TextSign: read the whole input, return its 64-byte signature. */
    method Sign(suite: Suite, reader: Reader) returns (r: Result<seq<byte>>)
      modifies reader
      ensures r == if reader.readable then Ok(Signature(suite, old(reader.pending))) else Err(Io)
      ensures reader.readable ==> reader.pending == []
    {
      var buf :- reader.ReadToEnd();
      r := Ok(Signature(suite, buf));
    }
  }

  /** `Ed25519Signer::try_new`: the slice must be exactly 32 bytes. */
  function Ed25519SignerTryNew(key: seq<byte>): (r: Result<Ed25519Signer>)
    ensures r.Ok? <==> |key| == 32
    ensures r.Ok? ==> r.value.key == key
    ensures !r.Ok? ==> r == Err(BadKey)
  {
    if |key| == 32 then Ok(Ed25519Signer(key)) else Err(BadKey)
  }

  /** `Ed25519Signer::load`: read the whole key file, then `try_new` on
      its bytes; a missing or unreadable file is an I/O error. */
  function Ed25519SignerLoad(fs: Fs, path: string): (r: Result<Ed25519Signer>)
    ensures ReadFile(fs, path).Ok? ==> r == Ed25519SignerTryNew(ReadFile(fs, path).value)
    ensures !ReadFile(fs, path).Ok? ==> r == Err(Io)
  {
    var bytes :- ReadFile(fs, path);
    Ed25519SignerTryNew(bytes)
  }

  /** An Ed25519 verifier: the 32-byte public key. */
  datatype Ed25519Verifier = Ed25519Verifier(key: Bytes32) {

    /** The verdict on a message once it has been read: a signature that is
        not 64 bytes long is an error, not a `false`. */
    function Check(suite: Suite, msg: seq<byte>, sig: seq<byte>): Result<bool> {
      if |sig| != 64 then Err(BadLength) else Ok(suite.verify(key, msg, sig))
    }

    /** TextVerify: read the whole input first, then check the signature. */
    method Verify(suite: Suite, reader: Reader, sig: seq<byte>) returns (r: Result<bool>)
      modifies reader
      ensures r == if reader.readable then Check(suite, old(reader.pending), sig) else Err(Io)
      ensures reader.readable ==> reader.pending == []
    {
      var buf :- reader.ReadToEnd();
      if |sig| != 64 {
        return Err(BadLength);
      }
      r := Ok(suite.verify(key, buf, sig));
    }
  }

  /** `Ed25519Verifier::try_new`: the slice must be exactly 32 bytes and
      encode a curve point. */
  function Ed25519VerifierTryNew(suite: Suite, key: seq<byte>): (r: Result<Ed25519Verifier>)
    ensures r.Ok? <==> |key| == 32 && suite.pointValid(key)
    ensures r.Ok? ==> r.value.key == key
    ensures !r.Ok? ==> r == Err(BadKey)
  {
    if |key| == 32 && suite.pointValid(key) then Ok(Ed25519Verifier(key)) else Err(BadKey)
  }

  /** `Ed25519Verifier::load`: read the whole key file, then `try_new` on
      its bytes; a missing or unreadable file is an I/O error. */
  function Ed25519VerifierLoad(suite: Suite, fs: Fs, path: string): (r: Result<Ed25519Verifier>)
    ensures ReadFile(fs, path).Ok? ==> r == Ed25519VerifierTryNew(suite, ReadFile(fs, path).value)
    ensures !ReadFile(fs, path).Ok? ==> r == Err(Io)
  {
    var bytes :- ReadFile(fs, path);
    Ed25519VerifierTryNew(suite, bytes)
  }

  // ---------------------------------------------------------------------
  // Key generation

  /** `Blake3::generate`: one buffer, a 32-character password drawn with
      every class enabled. */
  method GenerateBlake3() returns (keys: Result<seq<seq<byte>>>)
    ensures keys.Ok? && |keys.value| == 1 && |keys.value[0]| == 32
    ensures GenPass.HasOneOf(keys.value[0], GenPass.UPPER) && GenPass.HasOneOf(keys.value[0], GenPass.LOWER)
    ensures GenPass.HasOneOf(keys.value[0], GenPass.NUMBER) && GenPass.HasOneOf(keys.value[0], GenPass.SYMBOL)
    ensures GenPass.IsAsciiBytes(keys.value[0])
  {
    var key := GenPass.ProcessGenpass(32, true, true, true, true);
    keys := Ok([key]);
  }

  /** `Ed25519Signer::generate`: two buffers, the secret key (any 32 bytes
      the operating system's generator yields) and then its public key. */
  method GenerateEd25519(suite: Suite) returns (keys: Result<seq<seq<byte>>>)
    ensures keys.Ok? && |keys.value| == 2 && |keys.value[0]| == 32
    ensures keys.value[1] == suite.publicKey(keys.value[0])
  {
    ghost var zeros: seq<byte> := seq(32, _ => 0);
    assert |zeros| == 32;
    var sk: seq<byte> :| |sk| == 32;
    keys := Ok([sk, suite.publicKey(sk)]);
  }

  /** `process_generate`: the buffers are positional, the shared or secret
      key at index 0 and, for Ed25519 only, the public key at index 1. */
  method ProcessGenerate(suite: Suite, format: TextFormat.TextSignFormat) returns (keys: Result<seq<seq<byte>>>)
    ensures keys.Ok?
    ensures format.Blake3? ==> |keys.value| == 1 && |keys.value[0]| == 32
    ensures format.Blake3? ==> Blake3TryNew(keys.value[0]) == Ok(Blake3(keys.value[0]))
    ensures format.Blake3? ==> GenPass.IsAsciiBytes(keys.value[0])
    ensures format.Blake3? ==> GenPass.HasOneOf(keys.value[0], GenPass.UPPER) && GenPass.HasOneOf(keys.value[0], GenPass.LOWER)
    ensures format.Blake3? ==> GenPass.HasOneOf(keys.value[0], GenPass.NUMBER) && GenPass.HasOneOf(keys.value[0], GenPass.SYMBOL)
    ensures format.Ed25519? ==> |keys.value| == 2 && |keys.value[0]| == 32
    ensures format.Ed25519? ==> Ed25519SignerTryNew(keys.value[0]) == Ok(Ed25519Signer(keys.value[0]))
    ensures format.Ed25519? ==> keys.value[1] == suite.publicKey(keys.value[0])
    ensures format.Ed25519? && Ed25519Correct(suite) ==>
              Ed25519VerifierTryNew(suite, keys.value[1]) == Ok(Ed25519Verifier(keys.value[1]))
  {
    match format {
      case Blake3 =>
        keys := GenerateBlake3();
        assert keys.value[0][..32] == keys.value[0];
      case Ed25519 =>
        keys := GenerateEd25519(suite);
    }
  }

  // ---------------------------------------------------------------------
  // Dispatchers

  /** The raw signature `process_sign` computes before encoding it: open the
      input, then load the key, then read the input to its end. */
  function SignRaw(suite: Suite, fs: Fs, input: string, keyPath: string, format: TextFormat.TextSignFormat)
    : Result<seq<byte>>
  {
    var source :- GetReader(fs, input);
    match format
    case Blake3 =>
      var signer :- Blake3Load(fs, keyPath);
      var msg :- ReadAll(source);
      Ok(signer.Hash(suite, msg))
    case Ed25519 =>
      var signer :- Ed25519SignerLoad(fs, keyPath);
      var msg :- ReadAll(source);
      Ok(signer.Signature(suite, msg))
  }

  /** What `process_sign` returns. */
  function SignOutcome(suite: Suite, fs: Fs, input: string, keyPath: string, format: TextFormat.TextSignFormat)
    : Result<string>
  {
    var raw :- SignRaw(suite, fs, input, keyPath, format);
    Ok(Base64Url.Encode(raw))
  }

  /** What `process_verify` returns: the input is opened first but its
      failure is only looked at once the key has loaded. */
  function VerifyOutcome(suite: Suite, fs: Fs, input: string, keyPath: string, format: TextFormat.TextSignFormat,
                         sig: seq<byte>): Result<bool>
  {
    var readerOrError := GetReader(fs, input);
    match format
    case Blake3 =>
      var verifier :- Blake3Load(fs, keyPath);
      var source :- readerOrError;
      var msg :- ReadAll(source);
      Ok(verifier.Hash(suite, msg) == sig)
    case Ed25519 =>
      var verifier :- Ed25519VerifierLoad(suite, fs, keyPath);
      var source :- readerOrError;
      var msg :- ReadAll(source);
      verifier.Check(suite, msg, sig)
  }

  /** `process_sign`. */
  method ProcessSign(suite: Suite, fs: Fs, input: string, keyPath: string, format: TextFormat.TextSignFormat)
    returns (r: Result<string>)
    ensures r == SignOutcome(suite, fs, input, keyPath, format)
  {
    var source :- GetReader(fs, input);
    var reader := new Reader(source);
    var signed: Result<seq<byte>>;
    match format {
      case Blake3 =>
        var signer :- Blake3Load(fs, keyPath);
        signed := signer.Sign(suite, reader);
      case Ed25519 =>
        var signer :- Ed25519SignerLoad(fs, keyPath);
        signed := signer.Sign(suite, reader);
    }
    var raw :- signed;
    r := Ok(Base64Url.Encode(raw));
  }

  /** `process_verify`. */
  method ProcessVerify(suite: Suite, fs: Fs, input: string, keyPath: string, format: TextFormat.TextSignFormat,
                       sig: seq<byte>) returns (r: Result<bool>)
    ensures r == VerifyOutcome(suite, fs, input, keyPath, format, sig)
  {
    var readerOrError := GetReader(fs, input);
    match format {
      case Blake3 =>
        var verifier :- Blake3Load(fs, keyPath);
        var source :- readerOrError;
        var reader := new Reader(source);
        r := verifier.Verify(suite, reader, sig);
      case Ed25519 =>
        var verifier :- Ed25519VerifierLoad(suite, fs, keyPath);
        var source :- readerOrError;
        var reader := new Reader(source);
        r := verifier.Verify(suite, reader, sig);
    }
  }
}
