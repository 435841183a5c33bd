/** The `text` sub-commands (src/opts/text_opts.rs): what each command hands
    to the engine and what it keeps of the answer. File writes are returned
    as a map from path to bytes. */
module TextCommands {
  import opened Common
  import opened Primitives
  import opened Files
  import opened TextFormat
  import Ascii
  import Text
  import TextProperties
  import GenPass

  /** `text sign`: the input path ("-" for stdin), the key file and the
      algorithm, already parsed. */
  datatype SignOpts = SignOpts(input: string, key: string, format: TextSignFormat)

  /** `text verify`: as `sign`, plus the signature as typed on the command
      line. */
  datatype VerifyOpts = VerifyOpts(input: string, key: string, signature: string, format: TextSignFormat)

  /** `text genkey`: the algorithm and the output directory. */
  datatype GenerateOpts = GenerateOpts(format: TextSignFormat, output: string)

  /** `SignOpts::execute`: the signature is computed and dropped; only an
      error reaches the caller. */
  method ExecuteSign(suite: Suite, fs: Fs, opts: SignOpts) returns (r: Result<()>)
    ensures r == Discard(Text.SignOutcome(suite, fs, opts.input, opts.key, opts.format))
    ensures r.Ok? <==> Text.SignOutcome(suite, fs, opts.input, opts.key, opts.format).Ok?
  {
    var signed := Text.ProcessSign(suite, fs, opts.input, opts.key, opts.format);
    r := Discard(signed);
  }

  /** `VerifyOpts::execute`: the signature argument goes to the engine as
      its UTF-8 bytes, undecoded, and the verdict is dropped; only an error
      reaches the caller. */
  method ExecuteVerify(suite: Suite, fs: Fs, opts: VerifyOpts) returns (r: Result<()>)
    ensures r == Discard(Text.VerifyOutcome(suite, fs, opts.input, opts.key, opts.format, Ascii.Utf8(opts.signature)))
    ensures r.Ok? <==> Text.VerifyOutcome(suite, fs, opts.input, opts.key, opts.format, Ascii.Utf8(opts.signature)).Ok?
  {
    var verdict := Text.ProcessVerify(suite, fs, opts.input, opts.key, opts.format, Ascii.Utf8(opts.signature));
    r := Discard(verdict);
  }

  /** What `PathBuf::join` puts in front of a relative file name. */
  function DirPrefix(dir: string): (r: string)
    ensures dir == "" ==> r == ""
    ensures dir != "" ==> |r| >= |dir| && r[..|dir|] == dir
  {
    if dir == "" then "" else if dir[|dir| - 1] == '/' then dir else dir + "/"
  }

  /** `PathBuf::join` with a relative file name. */
  function JoinPath(dir: string, name: string): (r: string)
    ensures |r| >= |name| && r[|r| - |name|..] == name
  {
    DirPrefix(dir) + name
  }

  /** Joining distinct names of the same length onto the same directory
      gives distinct paths. */
  lemma JoinPathInjective(dir: string, a: string, b: string)
    requires |a| == |b|
    requires JoinPath(dir, a) == JoinPath(dir, b)
    ensures a == b
  {
    var p := JoinPath(dir, a);
    assert a == p[|DirPrefix(dir)|..];
  }

  const Blake3File := "blake3.txt"
  const SecretKeyFile := "ed25519.sk"
  const PublicKeyFile := "ed25519.pk"

  /** The two Ed25519 key files never collide, so neither write is lost. */
  lemma KeyFilesDistinct(dir: string)
    ensures JoinPath(dir, SecretKeyFile) != JoinPath(dir, PublicKeyFile)
  {
    if JoinPath(dir, SecretKeyFile) == JoinPath(dir, PublicKeyFile) {
      JoinPathInjective(dir, SecretKeyFile, PublicKeyFile);
    }
  }

  /** `GenerateOpts::execute`: generate the keys, then write buffer 0 to
      `blake3.txt` for Blake3, and buffer 0 to `ed25519.sk` and buffer 1 to
      `ed25519.pk` for Ed25519, inside the output directory. No other file
      is written. */
  method ExecuteGenerate(suite: Suite, opts: GenerateOpts) returns (r: Result<()>, written: map<string, seq<byte>>)
    ensures r == Ok(())
    ensures opts.format.Blake3? ==>
              && written.Keys == {JoinPath(opts.output, Blake3File)}
              && |written[JoinPath(opts.output, Blake3File)]| == 32
              && Text.Blake3TryNew(written[JoinPath(opts.output, Blake3File)])
                 == Ok(Text.Blake3(written[JoinPath(opts.output, Blake3File)]))
              && GenPass.IsAsciiBytes(written[JoinPath(opts.output, Blake3File)])
              && GenPass.HasOneOf(written[JoinPath(opts.output, Blake3File)], GenPass.UPPER)
              && GenPass.HasOneOf(written[JoinPath(opts.output, Blake3File)], GenPass.LOWER)
              && GenPass.HasOneOf(written[JoinPath(opts.output, Blake3File)], GenPass.NUMBER)
              && GenPass.HasOneOf(written[JoinPath(opts.output, Blake3File)], GenPass.SYMBOL)
    ensures opts.format.Ed25519? ==>
              && written.Keys == {JoinPath(opts.output, SecretKeyFile), JoinPath(opts.output, PublicKeyFile)}
              && |written.Keys| == 2
              && |written[JoinPath(opts.output, SecretKeyFile)]| == 32
              && written[JoinPath(opts.output, PublicKeyFile)] == suite.publicKey(written[JoinPath(opts.output, SecretKeyFile)])
              && Text.Ed25519SignerTryNew(written[JoinPath(opts.output, SecretKeyFile)])
                 == Ok(Text.Ed25519Signer(written[JoinPath(opts.output, SecretKeyFile)]))
    ensures opts.format.Ed25519? && Ed25519Correct(suite) ==>
              Text.Ed25519VerifierTryNew(suite, written[JoinPath(opts.output, PublicKeyFile)])
              == Ok(Text.Ed25519Verifier(written[JoinPath(opts.output, PublicKeyFile)]))
  {
    var keys := Text.ProcessGenerate(suite, opts.format);
    var key := keys.value;
    r := Ok(());
    match opts.format
    case Blake3 =>
      written := map[JoinPath(opts.output, Blake3File) := key[0]];
    case Ed25519 =>
      KeyFilesDistinct(opts.output);
      written := map[JoinPath(opts.output, SecretKeyFile) := key[0]];
      written := written[JoinPath(opts.output, PublicKeyFile) := key[1]];
  }

  /** The file system after the written files are in place (readable). */
  function Install(fs: Fs, written: map<string, seq<byte>>): (fs': Fs)
    ensures forall p :: p in written ==> p in fs'.files && fs'.files[p] == Node(written[p], true)
    ensures forall p :: p in fs.files && p !in written ==> p in fs'.files && fs'.files[p] == fs.files[p]
    ensures fs'.files.Keys == fs.files.Keys + written.Keys
    ensures fs'.stdin == fs.stdin
  {
    Fs(fs.files + map p | p in written :: Node(written[p], true), fs.stdin)
  }

  /** The key files `genkey` writes for Ed25519 work with `sign` and
      `verify`: signing any readable input with `ed25519.sk` and verifying
      the raw signature with `ed25519.pk` answers true. */
  lemma GeneratedEd25519FilesSignAndVerify(suite: Suite, fs: Fs, dir: string, written: map<string, seq<byte>>, input: string)
    requires Ed25519Correct(suite)
    requires written.Keys == {JoinPath(dir, SecretKeyFile), JoinPath(dir, PublicKeyFile)}
    requires |written[JoinPath(dir, SecretKeyFile)]| == 32
    requires written[JoinPath(dir, PublicKeyFile)] == suite.publicKey(written[JoinPath(dir, SecretKeyFile)])
    requires GetReader(Install(fs, written), input).Ok? && GetReader(Install(fs, written), input).value.readable
    ensures var fs' := Install(fs, written);
            var raw := Text.SignRaw(suite, fs', input, JoinPath(dir, SecretKeyFile), Ed25519);
            raw.Ok? &&
            Text.VerifyOutcome(suite, fs', input, JoinPath(dir, PublicKeyFile), Ed25519, raw.value) == Ok(true)
  {
    var fs' := Install(fs, written);
    var sk := written[JoinPath(dir, SecretKeyFile)];
    assert Text.Ed25519SignerLoad(fs', JoinPath(dir, SecretKeyFile)) == Ok(Text.Ed25519Signer(sk));
    assert Text.SignRaw(suite, fs', input, JoinPath(dir, SecretKeyFile), Ed25519).Ok?;
    TextProperties.Ed25519SignThenVerify(suite, fs', input, JoinPath(dir, SecretKeyFile), JoinPath(dir, PublicKeyFile));
  }

  /** The verify command reports success for a Blake3 signature that does
      not match: with the key and the input in place, whatever the
      signature argument, the verdict is dropped and the command is Ok. */
  lemma VerifyCommandIgnoresVerdict(suite: Suite, fs: Fs, opts: VerifyOpts)
    requires opts.format.Blake3?
    requires Text.Blake3Load(fs, opts.key).Ok?
    requires GetReader(fs, opts.input).Ok? && GetReader(fs, opts.input).value.readable
    ensures Discard(Text.VerifyOutcome(suite, fs, opts.input, opts.key, opts.format, Ascii.Utf8(opts.signature))) == Ok(())
  {
    TextProperties.Blake3VerifyIsEquality(suite, fs, opts.input, opts.key, Ascii.Utf8(opts.signature));
  }
}
