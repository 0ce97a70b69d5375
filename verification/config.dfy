/** The configuration file read by `ParseConfig` (main.go:164-191).

    Opening the file and decoding its JSON are library calls; the model
    receives their combined result as a `ConfigSource` and keeps only the
    validation that follows them. */
module Config {
  import opened Results

  /** The three fields of the configuration record. A field absent from the
      JSON document decodes to its zero value: "" or an empty list. */
  datatype Config = Config(
    cloudInitConfigPath: string,
    imageURL: string,
    extraPackages: seq<string>)

  /** What opening and decoding the configuration file produced. */
  datatype ConfigSource =
    | Unopenable                 // os.Open failed
    | Malformed                  // the JSON decoder reported an error
    | Document(fields: Config)   // decoding succeeded

  /** Why `ParseConfig` rejected the file, in the order the checks run. */
  datatype ConfigError =
    | OpenFailed
    | DecodeFailed
    | ImageUrlMissing
    | CloudInitConfigMissing

  /** A decoded record that `main` can use: both paths it relies on are set.
      The package list is not consulted. */
  predicate Usable(c: Config)
  {
    c.imageURL != "" && c.cloudInitConfigPath != ""
  }

  /** `ParseConfig`: open, decode, then check the image URL before the
      cloud-init path. */
  function ParseConfig(src: ConfigSource): (r: Result<Config, ConfigError>)
    ensures r.Ok? <==> src.Document? && Usable(src.fields)
    ensures r.Ok? ==> r.value == src.fields
    ensures src.Unopenable? ==> r == Err(OpenFailed)
    ensures src.Malformed? ==> r == Err(DecodeFailed)
    // an empty image URL is reported whatever the cloud-init path holds
    ensures src.Document? && src.fields.imageURL == "" ==> r == Err(ImageUrlMissing)
    ensures src.Document? && src.fields.imageURL != "" && src.fields.cloudInitConfigPath == "" ==>
              r == Err(CloudInitConfigMissing)
  {
    match src
    case Unopenable => Err(OpenFailed)
    case Malformed => Err(DecodeFailed)
    case Document(c) =>
      if c.imageURL == "" then Err(ImageUrlMissing)
      else if c.cloudInitConfigPath == "" then Err(CloudInitConfigMissing)
      else Ok(c)
  }

  /** The package list never decides whether a configuration is accepted,
      nor which error a rejected one reports. */
  lemma ExtraPackagesNeverRequired(c: Config, packages: seq<string>)
    ensures ParseConfig(Document(c.(extraPackages := packages))).Ok?
            == ParseConfig(Document(c)).Ok?
    ensures ParseConfig(Document(c)).Err? ==>
              ParseConfig(Document(c.(extraPackages := packages))) == ParseConfig(Document(c))
  {
  }
}
