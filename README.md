# rcli text signing, password generation and format tags, in Dafny

This project models the core of `rcli`, a Rust command-line tool. The core has three parts.

- **The `text` commands.** `text sign` reads an input (a file, or standard input for `-`) and signs it with a key file. It uses either a Blake3 keyed hash or Ed25519, and computes the raw signature's unpadded URL-safe base64 text. The command then discards that text, so only an error reaches the user. `text verify` checks a signature against an input and a key file. It also surfaces only errors: the verdict is discarded. `text genkey` writes fresh key files into a directory.
- **The password generator.** `genpass` guarantees one character from each enabled class, fills up to the requested length and shuffles. Blake3 key generation reuses it.
- **The tag parsers and printers.** These cover the `--format` values of the text, csv and base64 commands. They lower-case the tag and match it. The csv output format prints as its lower-case tag, which parses back to the same format (so "YAML" prints as "yaml").

Modules, one per source file, plus shared helpers:

- **`Common`**: bytes, error kinds, and `Result` with a `Panic` outcome for the code paths that panic instead of returning.
- **`Ascii`**: the ASCII part of `to_lowercase`, and `as_bytes` (UTF-8).
- **`Base64Url`**: a reference encoder for the URL-safe alphabet without padding (section 5 of RFC 4648), with its decoder and the round trip.
- **`Primitives`**: the cryptographic primitives.
  - They are the function-valued fields of a `Suite`: the Blake3 keyed hash, Ed25519 public key derivation, the public-key point check, Ed25519 sign and Ed25519 verify.
  - Every property is proved for every suite.
  - `Ed25519Correct(suite)` states the one law assumed of Ed25519: a signature made with a secret key verifies under its public key, and a derived public key is a valid point.
  - Only the round-trip results require that law.
- **`Files`**: the file system as a map from path to contents plus standard input, `get_reader`, `fs::read`, and a `Reader` object that `read_to_end` drains.
- **`Text`** (src/process/text.rs): the loaders, the signers and verifiers as methods that consume a `Reader`, key generation, and `process_sign`, `process_verify` and `process_generate`. The two dispatchers are methods proved equal to the functions `SignOutcome` and `VerifyOutcome`, which spell out the order of the checks.
- **`TextProperties`**: the properties of the engine, stated over those functions, and the two unit tests of the source file.
- **`GenPass`** (src/process/gen_pass.rs): `process_genpass` as an imperative method. It extends the pool and the password as local sequences, pushes the mandatory picks, fills in a loop, and then shuffles an array in place. The random generator is nondeterministic choice, so the contracts hold for every choice.
- **`TextFormat`, `TextCommands`** (src/opts/text_opts.rs): the algorithm tag, and the `execute` methods of the three text commands. The files `genkey` writes are returned as a map from path to bytes.
- **`CsvOptions`** (src/opts/csv_opts.rs) and **`CliCsv`** (src/cli/csv.rs): the two copies of `OutputFormat`, and in `CliCsv` the choice of output file name.
- **`Base64Options`** (src/opts/base64_opts.rs) and **`CliBase64`** (src/cli/base64.rs): the two copies of `Base64Format`.

## Model

| member | source | states |
|---|---|---|
| Common.Discard | src/opts/text_opts.rs:38-43 | keeps the failure of a call and drops its value, as `f()?; Ok(())` does |
| Ascii.ToLower | src/opts/text_opts.rs:108 | lower-casing keeps the length and maps each character to its lower-case form (ASCII letters) |
| Ascii.LowerMatchesAnyCase | src/opts/text_opts.rs:108-111 | matching the lower-cased input against a lower-case tag holds exactly when the input is the tag in some letter case |
| Ascii.Utf8 | src/opts/text_opts.rs:66 | `as_bytes` is at least one byte per character, and for ASCII text exactly the character codes |
| Base64Url.Encode | src/process/text.rs:164 | the encoding has ceil(4n/3) characters, all from the URL-safe alphabet, with no padding |
| Base64Url.DecodeEncode | src/process/text.rs:164 | decoding the encoding of any byte string gives that byte string back |
| Base64Url.EncodeInjective | src/process/text.rs:164 | distinct byte strings encode to distinct texts |
| Files.GetReader | src/utils.rs:5-13 | "-" opens standard input; any other name opens that file, or is an I/O error when there is none |
| Files.ReadFile | src/process/text.rs:44 | `fs::read` gives the whole file, or an I/O error when it is missing or unreadable; "-" is an ordinary name here |
| Files.Reader.ReadToEnd | src/process/text.rs:98-99 | `read_to_end` returns all pending bytes and leaves the reader drained, or fails with an I/O error and leaves it as it was |
| Text.Blake3TryNew | src/process/text.rs:34-39 | panics exactly when the key is shorter than 32 bytes, otherwise the key is the first 32 bytes; never returns an error |
| Text.Blake3Load | src/process/text.rs:42-47 | a readable key file goes through `try_new` on its whole contents; a missing or unreadable file is an I/O error |
| Text.Ed25519SignerLoad | src/process/text.rs:65-70 | a readable key file goes through the signer's `try_new` on its whole contents; a missing or unreadable file is an I/O error |
| Text.Ed25519VerifierLoad | src/process/text.rs:88-93 | a readable key file goes through the verifier's `try_new` on its whole contents; a missing or unreadable file is an I/O error |
| Text.Ed25519SignerTryNew | src/process/text.rs:58-62 | succeeds exactly on a 32-byte slice, which becomes the key; any other length is a key error |
| Text.Ed25519VerifierTryNew | src/process/text.rs:81-85 | succeeds exactly on a 32-byte slice that is a valid point; otherwise a key error |
| Text.Blake3.Sign | src/process/text.rs:95-101 | reads the whole input and returns its keyed hash; an unreadable input is an I/O error |
| Text.Blake3.Verify | src/process/text.rs:104-110 | reads the whole input; the answer is whether `sig` equals its keyed hash |
| Text.Ed25519Signer.Sign | src/process/text.rs:113-119 | reads the whole input and returns the 64-byte signature of it |
| Text.Ed25519Verifier.Verify | src/process/text.rs:121-127 | reads the whole input first; then a signature that is not 64 bytes is an error, otherwise the answer is the primitive's verdict |
| Text.GenerateBlake3 | src/process/text.rs:133-139 | one buffer of 32 ASCII bytes holding an upper-case letter, a lower-case letter, a digit and a symbol |
| Text.GenerateEd25519 | src/process/text.rs:141-148 | two buffers: a 32-byte secret key at index 0 and its public key at index 1 |
| Text.ProcessGenerate | src/process/text.rs:182-187 | routes by tag; the buffer at index 0 loads back with the loader of its algorithm, and a Blake3 key keeps the ASCII and four-class guarantees of genpass; the Ed25519 public key at index 1 is the secret key's, and under the Ed25519 law it loads back as a verifier key |
| Text.ProcessSign | src/process/text.rs:151-165 | the outcome is `SignOutcome`: open the input, load the key, read and sign, encode as URL-safe base64 |
| Text.ProcessVerify | src/process/text.rs:167-180 | the outcome is `VerifyOutcome`: open the input, load the key, then fail on the input, then read and verify |
| TextProperties.Blake3KeyIsPrefix | src/process/text.rs:34-39 | bytes after the first 32 of a Blake3 key file are ignored |
| TextProperties.Blake3LoadKeepsPrefix | src/process/text.rs:34-46 | a key file holding 32 bytes followed by anything loads as exactly those 32 bytes |
| TextProperties.Blake3VerifyIsEquality | src/process/text.rs:104-110 | with key and input in place, Blake3 verification never fails: it is true exactly when `sig` is the keyed hash, and false for a signature of any other length |
| TextProperties.Ed25519VerifyChecksLengthAfterReading | src/process/text.rs:121-127 | an unreadable input is an I/O error whatever the signature; a readable input with a signature that is not 64 bytes is a length error, not false |
| TextProperties.VerifyKeyFailureComesFirst | src/process/text.rs:167-179 | a key that fails to load decides the verify outcome, whatever the input and the signature |
| TextProperties.VerifyShortBlake3KeyPanics | src/process/text.rs:167-173 | a Blake3 key file shorter than 32 bytes makes verify panic, even when the input does not exist |
| TextProperties.SignInputFailureComesFirst | src/process/text.rs:151-152 | an input that cannot be opened makes sign an I/O error, whatever the key file holds |
| TextProperties.SignRawLength | src/process/text.rs:151-163 | the raw signature is 32 bytes for Blake3 and 64 for Ed25519 |
| TextProperties.SignOutputIsBase64Url | src/process/text.rs:164 | the signing output is 43 (Blake3) or 86 (Ed25519) URL-safe characters and decodes to the raw signature |
| TextProperties.EncodedSignatureNeverVerifies | src/opts/text_opts.rs:61-67 | the text `process_sign` returns, passed to verify as its UTF-8 bytes, never verifies, under either algorithm and any files |
| TextProperties.Blake3SignThenVerify | src/process/text.rs:151-174 | the raw Blake3 signature of an input verifies with the same key file over the same input |
| TextProperties.Ed25519SignThenVerify | src/process/text.rs:151-178 | a raw Ed25519 signature verifies under a file holding the matching public key |
| TextProperties.GeneratedBlake3KeyVerifies | src/process/text.rs:133-139 | a generated Blake3 key, stored in a file, signs any readable input with exactly that key, and the signature verifies |
| TextProperties.GeneratedEd25519KeysVerify | src/process/text.rs:141-148 | generated Ed25519 key buffers, stored in two files, sign and verify any readable input |
| TextProperties.TestBlake3SignVerify | src/process/text.rs:195-201 | a loaded Blake3 key signs data from one reader and verifies it from another |
| TextProperties.TestEd25519SignVerify | src/process/text.rs:204-212 | a signature from the secret key file verifies under the matching public key file |
| GenPass.Span | src/process/gen_pass.rs:4-6 | the class tables are runs of consecutive ASCII codes |
| GenPass.ClassSizes | src/process/gen_pass.rs:4-7 | the classes have 26, 26, 10 and 32 bytes |
| GenPass.ClassesAreAscii | src/process/gen_pass.rs:4-7 | every class byte is ASCII |
| GenPass.CharsetIsAscii | src/process/gen_pass.rs:19-36 | the pool is ASCII, and it is empty exactly when no class is enabled |
| GenPass.HasOneOfGrows | src/process/gen_pass.rs:38-40 | appending bytes keeps "some byte from the class" |
| GenPass.PermutationKeeps | src/process/gen_pass.rs:42 | reordering keeps "some byte from the class" and "every byte from the pool" |
| GenPass.PicksCoverGrows | src/process/gen_pass.rs:38-40 | the fill loop keeps what the class blocks established |
| GenPass.Shuffle | src/process/gen_pass.rs:42 | the shuffle only permutes: the multiset of bytes is unchanged |
| GenPass.AddClass | src/process/gen_pass.rs:21-24 | a class block extends the pool by the class and pushes one byte of it |
| GenPass.MandatoryPicks | src/process/gen_pass.rs:21-36 | the class blocks build the pool of enabled classes and push exactly one byte per enabled class |
| GenPass.ProcessGenpass | src/process/gen_pass.rs:10-46 | for a length and classes that do not panic (at least one class, no more classes than places, length above 0), the password has `length` ASCII bytes, one from each enabled class, all from the enabled classes |
| TextFormat.FromStr | src/opts/text_opts.rs:105-114 | Blake3 exactly for lower-case "blake3", Ed25519 exactly for "ed25519", otherwise the error "Invalid sign format" |
| TextFormat.ParseFormat | src/opts/text_opts.rs:116-118 | is `from_str`, and accepts exactly the two tags in any letter case |
| TextFormat.TagsInAnyCase | src/opts/text_opts.rs:108-110 | each tag in any letter case parses to its algorithm |
| TextCommands.ExecuteSign | src/opts/text_opts.rs:38-43 | the command succeeds exactly when signing does; the signature is dropped |
| TextCommands.ExecuteVerify | src/opts/text_opts.rs:60-70 | passes the signature argument as its UTF-8 bytes; succeeds exactly when verification returns a verdict, which is dropped |
| TextCommands.ExecuteGenerate | src/opts/text_opts.rs:81-97 | writes buffer 0 to blake3.txt, or buffer 0 to ed25519.sk and buffer 1 to ed25519.pk, and no other file; blake3.txt loads back as exactly its 32 bytes, which are ASCII and cover all four classes; ed25519.sk loads as a signer, and ed25519.pk holds its public key, which loads as a verifier under the Ed25519 law |
| TextCommands.DirPrefix | src/opts/text_opts.rs:86 | joining keeps the directory as the prefix of the path |
| TextCommands.JoinPath | src/opts/text_opts.rs:86 | the joined path ends with the file name |
| TextCommands.JoinPathInjective | src/opts/text_opts.rs:90-92 | names of equal length joined to one directory collide only when they are equal |
| TextCommands.KeyFilesDistinct | src/opts/text_opts.rs:90-92 | the two Ed25519 key files never collide |
| TextCommands.Install | src/opts/text_opts.rs:87-92 | after the writes, each written path holds its bytes, every other file is unchanged, and no other path appears |
| TextCommands.GeneratedEd25519FilesSignAndVerify | src/opts/text_opts.rs:89-93 | signing with the written ed25519.sk and verifying with the written ed25519.pk answers true |
| TextCommands.VerifyCommandIgnoresVerdict | src/opts/text_opts.rs:60-69 | with key and input in place, the Blake3 verify command succeeds whatever the signature argument |
| CsvOptions.FromStr | src/opts/csv_opts.rs:44-55 | Json, Toml or Yaml exactly for lower-case "json", "toml" or "yaml", otherwise the error "Invalid format" |
| CsvOptions.ParseFormat | src/opts/csv_opts.rs:39-42 | is `from_str`, and accepts exactly the three tags in any letter case |
| CsvOptions.TagsInAnyCase | src/opts/csv_opts.rs:48-51 | each tag in any letter case parses to its variant |
| CsvOptions.AsStr | src/opts/csv_opts.rs:67-75 | each variant converts to a lower-case name that parses back to it |
| CsvOptions.Display | src/opts/csv_opts.rs:77-81 | printing then parsing gives the format back |
| CsvOptions.DisplayInjective | src/opts/csv_opts.rs:67-81 | distinct formats print differently |
| CliCsv.FromStr | src/cli/csv.rs:53-64 | Json, Toml or Yaml exactly for lower-case "json", "toml" or "yaml", otherwise the error "Invalid format" |
| CliCsv.ParseFormat | src/cli/csv.rs:48-51 | is `from_str`, and accepts exactly the three tags in any letter case |
| CliCsv.TagsInAnyCase | src/cli/csv.rs:57-60 | each tag in any letter case parses to its variant |
| CliCsv.AsStr | src/cli/csv.rs:66-74 | each variant converts to a lower-case name that parses back to it |
| CliCsv.Display | src/cli/csv.rs:76-80 | printing then parsing gives the format back |
| CliCsv.DisplayInjective | src/cli/csv.rs:66-80 | distinct formats print differently |
| CliCsv.OutputName | src/cli/csv.rs:30-34 | a given output name is used unchanged; without one the name is "output." followed by the printed format, a lower-case extension that parses back to the format |
| CliCsv.OutputArgAsWritten | src/cli/csv.rs:15-16 | the declared default makes the output argument always present, and a given one is kept |
| CliCsv.OutputFileAsWritten | src/cli/csv.rs:15-34 | without `--output` the file is always "output.json" |
| CliCsv.DefaultNameIgnoresFormat | src/cli/csv.rs:15-34 | without `--output`, a YAML conversion goes to "output.json", not to the name `execute` would choose |
| CliCsv.DefaultNameFollowsFormat | src/cli/csv.rs:30-34 | without a default, formats go to distinct files and JSON still goes to "output.json" |
| Base64Options.FromStr | src/opts/base64_opts.rs:40-49 | Standard exactly for lower-case "standard", Urlsafe exactly for "urlsafe", otherwise the error "Invalid base64 format" |
| Base64Options.ParseBase64Format | src/opts/base64_opts.rs:51-53 | is `from_str`, accepts exactly the two tags in any letter case, and the default tag "standard" is Standard |
| Base64Options.TagsInAnyCase | src/opts/base64_opts.rs:43-45 | each tag in any letter case parses to its alphabet |
| CliBase64.FromStr | src/cli/base64.rs:59-68 | Standard exactly for lower-case "standard", Urlsafe exactly for "urlsafe", otherwise the error "Invalid base64 format" |
| CliBase64.ParseBase64Format | src/cli/base64.rs:70-72 | is `from_str`, accepts exactly the two tags in any letter case, and the default tag "standard" is Standard |
| CliBase64.TagsInAnyCase | src/cli/base64.rs:62-64 | each tag in any letter case parses to its alphabet |

## Left out

- The cryptographic primitives (the Blake3 keyed hash, and Ed25519 signing, verification, public-key derivation and the point check inside `VerifyingKey::try_from`) are library code. They are the fields of a `Suite` parameter. Their only assumed law is `Ed25519Correct`.
- `OsRng` and `thread_rng` are not modelled as generators. Key generation and `genpass` choose nondeterministically, so their contracts hold for every choice.
- The base64 engine is a library. `Base64Url.Encode` is a reference definition of the URL-safe, unpadded alphabet, not the engine's code.
- `src/process/b64.rs` is not part of this model. It wraps the base64 engine and I/O.
- File and standard-input I/O are values (`Files.Fs`): a missing or unreadable file is an I/O error. Partial reads, interrupted reads, and standard input being consumed by a first read are not modelled. In the model, standard input can be read again.
- `fs::write` in `GenerateOpts::execute` is a returned map from path to bytes. A failing write is not modelled, so `TextCommands.ExecuteGenerate` always succeeds.
- `verify_file`, `verify_input_file` and `parse_path` probe the file system while arguments are parsed. They are not modelled: the options hold paths that were already accepted.
- `process_csv`, the CSV and serde conversion, and `src/main.rs` are not part of this model.
- The HTTP server (`src/process/http_serve.rs`, `src/opts/http_opts.rs`) is not part of this model.
- The zxcvbn score and the `println!` of the password (src/process/gen_pass.rs:44-45) are left out, except for one effect. The estimate rejects a blank password, and its `.unwrap()` then panics; `GenPass.ProcessGenpass` requires a non-zero length to exclude that case.
- clap parsing, `enum_dispatch` and the async `CmdExecutor` trait are not modelled. Only the argument default that decides the csv output name is modelled (see Findings).
- Ascii.ToLower: lower-cases ASCII letters only, whereas `to_lowercase` is Unicode-aware. For example, the Kelvin sign lower-cases to "k" in Rust but is unchanged in the model, so a tag spelled with it parses in Rust and is rejected here.
- GenPass.ProcessGenpass: the three panics are preconditions. They are a `u8` underflow when fewer places than enabled classes remain, `gen_range(0..0)` on an empty pool, and `zxcvbn("").unwrap()` on a blank password (length 0). Together they leave `1 <= EnabledCount <= length`. A release build would wrap the subtraction instead of panicking, and the model does not cover that build.
- Text.GenerateBlake3: `process_genpass` returns a plain `String`, yet text.rs applies `?` to it. The model treats the call as one that cannot fail.
- Text.Ed25519VerifierTryNew: which 32-byte strings are valid points is left to the `Suite` (`pointValid`).
- Text.Blake3TryNew: a key file shorter than 32 bytes panics at `&key[..32]` rather than returning an error. The model follows the code and returns `Panic`; so do `Blake3Load` and the dispatchers.

## Findings

| source | as written | input that shows it | evidently intended | confidence | as-written member | corrected member |
|---|---|---|---|---|---|---|
| src/cli/csv.rs:15-34 | `--output` is an `Option<String>` with `default_value = "output.json"`, so clap always supplies `Some`, and the `None` branch of `execute` that builds "output." plus the format never runs | `csv -i data.csv -f yaml` without `-o` writes YAML to "output.json" | without `-o` the file is named after the format ("output.yaml"), which is what `execute` builds | medium, not executed | CliCsv.DefaultNameIgnoresFormat | CliCsv.DefaultNameFollowsFormat |
