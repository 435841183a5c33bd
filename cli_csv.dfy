/** The csv command as src/cli/csv.rs has it: its own copy of the
    `OutputFormat` tag, and the choice of output file name in
    `CsvOpts::execute`, together with the default that the argument
    declaration puts in front of it. */
module CliCsv {
  import opened Common
  import opened Ascii

  datatype OutputFormat = Json | Toml | Yaml

  const InvalidFormat: string := "Invalid format"

  /** `OutputFormat::from_str`: the lower-cased tag "json", "toml" or
      "yaml". */
  function FromStr(s: string): (r: Result<OutputFormat>)
    ensures r == Ok(Json) <==> ToLower(s) == "json"
    ensures r == Ok(Toml) <==> ToLower(s) == "toml"
    ensures r == Ok(Yaml) <==> ToLower(s) == "yaml"
    ensures !r.Ok? ==> r == Err(Invalid(InvalidFormat))
  {
    match ToLower(s)
    case "json" => Ok(Json)
    case "toml" => Ok(Toml)
    case "yaml" => Ok(Yaml)
    case _ => Err(Invalid(InvalidFormat))
  }

  /** `parse_format`: accepts exactly the three tags, in any letter case. */
  function ParseFormat(format: string): (r: Result<OutputFormat>)
    ensures r == FromStr(format)
    ensures r.Ok? <==> EqualIgnoringCase(format, "json") || EqualIgnoringCase(format, "toml") || EqualIgnoringCase(format, "yaml")
  {
    LowerMatchesAnyCase(format, "json");
    LowerMatchesAnyCase(format, "toml");
    LowerMatchesAnyCase(format, "yaml");
    FromStr(format)
  }

  /** Each tag in any letter case parses to its variant. */
  lemma TagsInAnyCase(s: string)
    ensures EqualIgnoringCase(s, "json") ==> ParseFormat(s) == Ok(Json)
    ensures EqualIgnoringCase(s, "toml") ==> ParseFormat(s) == Ok(Toml)
    ensures EqualIgnoringCase(s, "yaml") ==> ParseFormat(s) == Ok(Yaml)
  {
    LowerMatchesAnyCase(s, "json");
    LowerMatchesAnyCase(s, "toml");
    LowerMatchesAnyCase(s, "yaml");
  }

  /** `From<OutputFormat> for &str`: a lower-case name that the parser
      reads back as the same variant. */
  function AsStr(value: OutputFormat): (r: string)
    ensures ToLower(r) == r
    ensures FromStr(r) == Ok(value)
  {
    match value
    case Json => "json"
    case Toml => "toml"
    case Yaml => "yaml"
  }

  /** `Display`: writes the `&str` form, so printing then parsing gives the
      format back. */
  function Display(value: OutputFormat): (r: string)
    ensures ParseFormat(r) == Ok(value)
    ensures ToLower(r) == r
  {
    AsStr(value)
  }

  /** Distinct formats print differently. */
  lemma DisplayInjective(f: OutputFormat, g: OutputFormat)
    requires Display(f) == Display(g)
    ensures f == g
  {
    assert ParseFormat(Display(f)) == Ok(f);
  }

  const DefaultStem: string := "output."

  /** The name `CsvOpts::execute` writes to: the `--output` value when
      there is one, otherwise "output." followed by the printed format: a
      lower-case extension that reads back as the format. */
  function OutputName(output: Option<string>, format: OutputFormat): (r: string)
    ensures output.Some? ==> r == output.value
    ensures output.None? ==> r == DefaultStem + Display(format)
    ensures output.None? ==> |r| > |DefaultStem| && r[..|DefaultStem|] == DefaultStem
                             && ParseFormat(r[|DefaultStem|..]) == Ok(format)
                             && ToLower(r[|DefaultStem|..]) == r[|DefaultStem|..]
  {
    match output
    case Some(name) => name
    case None => DefaultStem + Display(format)
  }

  /** What the `--output` argument holds once parsed as written:
      `default_value = "output.json"` on an `Option<String>` fills in
      `Some("output.json")` when the flag is absent, so `execute` never
      sees `None`. */
  function OutputArgAsWritten(given: Option<string>): (r: Option<string>)
    ensures r.Some?
    ensures given.Some? ==> r == given
  {
    match given
    case Some(_) => given
    case None => Some("output.json")
  }

  /** The file name chosen as written: the argument default, then
      `execute`. */
  function OutputFileAsWritten(given: Option<string>, format: OutputFormat): (r: string)
    ensures given.Some? ==> r == given.value
    ensures given.None? ==> r == "output.json"
  {
    OutputName(OutputArgAsWritten(given), format)
  }

  /** Without `--output`, a YAML (or TOML) conversion is written to
      "output.json": the format-dependent default in `execute` is never
      reached. */
  lemma DefaultNameIgnoresFormat()
    ensures OutputFileAsWritten(None, Yaml) == "output.json"
    ensures OutputFileAsWritten(None, Yaml) != OutputName(None, Yaml)
  {
    assert OutputName(None, Yaml)[|DefaultStem|..] == "yaml";
  }

  /** With `--output` left optional (no argument default), `execute`
      writes different formats to different files when the flag is absent,
      and the default format JSON still goes to "output.json". */
  lemma DefaultNameFollowsFormat(f: OutputFormat, g: OutputFormat)
    ensures OutputName(None, Json) == "output.json"
    ensures OutputName(None, f) == OutputName(None, g) ==> f == g
  {
    if OutputName(None, f) == OutputName(None, g) {
      assert ParseFormat(OutputName(None, f)[|DefaultStem|..]) == Ok(g);
    }
  }
}
