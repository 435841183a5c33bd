/** The alphabet tag of the base64 commands as src/opts/base64_opts.rs has
    it: `Base64Format`, its case-insensitive `from_str` and the
    `parse_base64_format` value parser. */
module Base64Options {
  import opened Common
  import opened Ascii

  datatype Base64Format = Standard | Urlsafe

  const InvalidBase64Format: string := "Invalid base64 format"

  /** The tag both sub-commands fall back to. */
  const DefaultFormat: string := "standard"

  /** `Base64Format::from_str`: the lower-cased tag "standard" or
      "urlsafe". */
  function FromStr(s: string): (r: Result<Base64Format>)
    ensures r == Ok(Standard) <==> ToLower(s) == "standard"
    ensures r == Ok(Urlsafe) <==> ToLower(s) == "urlsafe"
    ensures !r.Ok? ==> r == Err(Invalid(InvalidBase64Format))
  {
    match ToLower(s)
    case "standard" => Ok(Standard)
    case "urlsafe" => Ok(Urlsafe)
    case _ => Err(Invalid(InvalidBase64Format))
  }

  /** `parse_base64_format`: accepts exactly the two tags, in any letter
      case, and the default tag is the standard alphabet. */
  function ParseBase64Format(format: string): (r: Result<Base64Format>)
    ensures r == FromStr(format)
    ensures r.Ok? <==> EqualIgnoringCase(format, "standard") || EqualIgnoringCase(format, "urlsafe")
    ensures format == DefaultFormat ==> r == Ok(Standard)
  {
    LowerMatchesAnyCase(format, "standard");
    LowerMatchesAnyCase(format, "urlsafe");
    FromStr(format)
  }

  /** Each tag in any letter case parses to its variant. */
  lemma TagsInAnyCase(s: string)
    ensures EqualIgnoringCase(s, "standard") ==> ParseBase64Format(s) == Ok(Standard)
    ensures EqualIgnoringCase(s, "urlsafe") ==> ParseBase64Format(s) == Ok(Urlsafe)
  {
    LowerMatchesAnyCase(s, "standard");
    LowerMatchesAnyCase(s, "urlsafe");
  }
}
