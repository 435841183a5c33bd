/** The algorithm tag of the text commands (src/opts/text_opts.rs, lines
    99-118): `TextSignFormat`, its case-insensitive `from_str` and the
    `parse_format` value parser. */
module TextFormat {
  import opened Common
  import opened Ascii

  datatype TextSignFormat = Blake3 | Ed25519

  const InvalidSignFormat: string := "Invalid sign format"

  /** `TextSignFormat::from_str`: the lower-cased tag "blake3" or "ed25519". */
  function FromStr(s: string): (r: Result<TextSignFormat>)
    ensures r == Ok(Blake3) <==> ToLower(s) == "blake3"
    ensures r == Ok(Ed25519) <==> ToLower(s) == "ed25519"
    ensures !r.Ok? ==> r == Err(Invalid(InvalidSignFormat))
  {
    match ToLower(s)
    case "blake3" => Ok(Blake3)
    case "ed25519" => Ok(Ed25519)
    case _ => Err(Invalid(InvalidSignFormat))
  }

  /** `parse_format`: accepts exactly the two tags, in any letter case. */
  function ParseFormat(format: string): (r: Result<TextSignFormat>)
    ensures r == FromStr(format)
    ensures r.Ok? <==> EqualIgnoringCase(format, "blake3") || EqualIgnoringCase(format, "ed25519")
  {
    LowerMatchesAnyCase(format, "blake3");
    LowerMatchesAnyCase(format, "ed25519");
    FromStr(format)
  }

  /** "blake3" in any letter case is Blake3, "ed25519" in any letter case
      is Ed25519. */
  lemma TagsInAnyCase(s: string)
    ensures EqualIgnoringCase(s, "blake3") ==> FromStr(s) == Ok(Blake3)
    ensures EqualIgnoringCase(s, "ed25519") ==> FromStr(s) == Ok(Ed25519)
  {
    LowerMatchesAnyCase(s, "blake3");
    LowerMatchesAnyCase(s, "ed25519");
  }
}
