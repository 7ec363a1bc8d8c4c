/**
 * Start-up configuration: credentials from the environment or the command line,
 * the quality and media-type preferences and the output directory.
 * A fatal start-up condition (the process printing a message and exiting with 1)
 * is an `Err` value here.
 */
module Config {
  import opened Wrappers

  /** The environment variables EMAIL and PASSWORD; `None` when a variable is unset. */
  datatype Environment = Environment(email: Option<string>, password: Option<string>)

  /** The flags --email, --password, --quality, --media-types and --directory; `None` when absent. */
  datatype Flags = Flags(
    email: Option<string>,
    password: Option<string>,
    quality: Option<string>,
    mediaTypes: Option<string>,
    directory: Option<string>)

  datatype ConfigError =
    | MissingEmail
    | MissingPassword
    | InvalidQuality(given: string)

  /** The resolved configuration. Quality and media type stay strings: the source keeps an
      empty quality and never checks the media type. */
  datatype Settings = Settings(
    email: string,
    password: string,
    quality: string,
    mediaType: string,
    directory: string)

  const Qualities: seq<string> := ["high", "low", "both"]
  const DefaultQuality: string := "both"
  const DefaultMediaType: string := "both"
  const DefaultDirectory: string := "./dump"

  /** JavaScript's `a ?? b` on possibly-undefined values: an empty string is kept. */
  function Coalesce<T>(a: Option<T>, b: Option<T>): Option<T>
  {
    if a.Some? then a else b
  }

  /** `a ?? default` for a possibly-undefined value. */
  function OrElse<T>(a: Option<T>, default: T): T
  {
    if a.Some? then a.value else default
  }

  /** JavaScript truthiness of a string-or-undefined: false for undefined and for "". */
  predicate Truthy(v: Option<string>)
  {
    v.Some? && v.value != ""
  }

  /** A usable email is supplied: a non-empty EMAIL, or EMAIL unset and a non-empty --email. */
  predicate EmailGiven(env: Environment, flags: Flags)
  {
    Truthy(env.email) || (env.email.None? && Truthy(flags.email))
  }

  predicate PasswordGiven(env: Environment, flags: Flags)
  {
    Truthy(env.password) || (env.password.None? && Truthy(flags.password))
  }

  /** A --quality value the start-up check rejects: non-empty and not one of the three names. */
  predicate QualityRejected(flags: Flags)
  {
    flags.quality.Some? && flags.quality.value != "" && flags.quality.value !in Qualities
  }

  /** Resolves the configuration, with the checks in the source's order:
      email, then password, then quality. */
  function Resolve(env: Environment, flags: Flags): (r: Result<Settings, ConfigError>)
    // each fatal condition, exactly when it occurs
    ensures r == Err(MissingEmail) <==> !EmailGiven(env, flags)
    ensures r == Err(MissingPassword) <==> EmailGiven(env, flags) && !PasswordGiven(env, flags)
    ensures r.Err? && r.error.InvalidQuality? <==>
              EmailGiven(env, flags) && PasswordGiven(env, flags) && QualityRejected(flags)
    ensures r.Err? && r.error.InvalidQuality? ==> Some(r.error.given) == flags.quality
    // credentials: the environment first, the flag only when the variable is unset
    ensures r.Ok? ==> r.value.email != "" && r.value.password != ""
    ensures r.Ok? && env.email.Some? ==> r.value.email == env.email.value
    ensures r.Ok? && env.email.None? ==> flags.email == Some(r.value.email)
    ensures r.Ok? && env.password.Some? ==> r.value.password == env.password.value
    ensures r.Ok? && env.password.None? ==> flags.password == Some(r.value.password)
    // preferences and their defaults
    ensures r.Ok? ==> r.value.quality in Qualities || r.value.quality == ""
    ensures r.Ok? && flags.quality.None? ==> r.value.quality == DefaultQuality
    ensures r.Ok? && flags.quality.Some? ==> r.value.quality == flags.quality.value
    ensures r.Ok? && flags.mediaTypes.None? ==> r.value.mediaType == DefaultMediaType
    ensures r.Ok? && flags.mediaTypes.Some? ==> r.value.mediaType == flags.mediaTypes.value
    ensures r.Ok? && flags.directory.None? ==> r.value.directory == DefaultDirectory
    ensures r.Ok? && flags.directory.Some? ==> r.value.directory == flags.directory.value
  {
    var email := Coalesce(env.email, flags.email);
    var password := Coalesce(env.password, flags.password);
    if !Truthy(email) then Err(MissingEmail)
    else if !Truthy(password) then Err(MissingPassword)
    else if QualityRejected(flags) then
      Err(InvalidQuality(flags.quality.value))
    else
      Ok(Settings(
        email.value,
        password.value,
        OrElse(flags.quality, DefaultQuality),
        OrElse(flags.mediaTypes, DefaultMediaType),
        OrElse(flags.directory, DefaultDirectory)))
  }

  /** When a variable is set, the corresponding flag has no influence at all. */
  lemma EnvironmentOverridesFlags(env: Environment, flags: Flags, email: Option<string>, password: Option<string>)
    requires env.email.Some? && env.password.Some?
    ensures Resolve(env, flags.(email := email, password := password)) == Resolve(env, flags)
  {
  }

  /** --media-types is never validated: whatever it says, resolution succeeds or fails
      exactly as it would without it. */
  lemma MediaTypeNeverRejected(env: Environment, flags: Flags, mediaTypes: Option<string>)
    ensures Resolve(env, flags.(mediaTypes := mediaTypes)).Ok? == Resolve(env, flags).Ok?
  {
  }

  /** Every input that has both credentials and an acceptable or empty quality resolves. */
  lemma AcceptedInputsResolve(env: Environment, flags: Flags)
    requires EmailGiven(env, flags) && PasswordGiven(env, flags)
    requires flags.quality.None? || flags.quality.value in Qualities || flags.quality.value == ""
    ensures Resolve(env, flags).Ok?
  {
  }
}
