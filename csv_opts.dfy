/** The output-format tag of the csv command as src/opts/csv_opts.rs has
    it: `OutputFormat`, its case-insensitive `from_str`, its conversion to
    `&str` and its `Display`. */
module CsvOptions {
  import opened Common
  import opened Ascii

  datatype OutputFormat = Json | Toml | Yaml

  const InvalidFormat: string := "Invalid format"

  /** `OutputFormat::from_str`: the lower-cased tag "json", "toml" or
      "yaml". */
  function FromStr(s: string): (r: Result<OutputFormat>)
    ensures r == Ok(Json) <==> ToLower(s) == "json"
    ensures r == Ok(Toml) <==> ToLower(s) == "toml"
    ensures r == Ok(Yaml) <==> ToLower(s) == "yaml"
    ensures !r.Ok? ==> r == Err(Invalid(InvalidFormat))
  {
    match ToLower(s)
    case "json" => Ok(Json)
    case "toml" => Ok(Toml)
    case "yaml" => Ok(Yaml)
    case _ => Err(Invalid(InvalidFormat))
  }

  /** `parse_format`: accepts exactly the three tags, in any letter case. */
  function ParseFormat(format: string): (r: Result<OutputFormat>)
    ensures r == FromStr(format)
    ensures r.Ok? <==> EqualIgnoringCase(format, "json") || EqualIgnoringCase(format, "toml") || EqualIgnoringCase(format, "yaml")
  {
    LowerMatchesAnyCase(format, "json");
    LowerMatchesAnyCase(format, "toml");
    LowerMatchesAnyCase(format, "yaml");
    FromStr(format)
  }

  /** Each tag in any letter case parses to its variant. */
  lemma TagsInAnyCase(s: string)
    ensures EqualIgnoringCase(s, "json") ==> ParseFormat(s) == Ok(Json)
    ensures EqualIgnoringCase(s, "toml") ==> ParseFormat(s) == Ok(Toml)
    ensures EqualIgnoringCase(s, "yaml") ==> ParseFormat(s) == Ok(Yaml)
  {
    LowerMatchesAnyCase(s, "json");
    LowerMatchesAnyCase(s, "toml");
    LowerMatchesAnyCase(s, "yaml");
  }

  /** `From<OutputFormat> for &str`: a lower-case name that the parser
      reads back as the same variant. */
  function AsStr(value: OutputFormat): (r: string)
    ensures ToLower(r) == r
    ensures FromStr(r) == Ok(value)
  {
    match value
    case Json => "json"
    case Toml => "toml"
    case Yaml => "yaml"
  }

  /** `Display`: writes the `&str` form, so printing then parsing gives the
      format back. */
  function Display(value: OutputFormat): (r: string)
    ensures ParseFormat(r) == Ok(value)
    ensures ToLower(r) == r
  {
    AsStr(value)
  }

  /** Distinct formats print differently. */
  lemma DisplayInjective(f: OutputFormat, g: OutputFormat)
    requires Display(f) == Display(g)
    ensures f == g
  {
    assert ParseFormat(Display(f)) == Ok(f);
  }
}
