/** The service layer's configuration (internal/config/config.go): the values
    read from the YAML file, the check that the required credentials are
    present, and the gate that refuses an invalid configuration. Reading and
    parsing the file are left to the caller: `LoadConfig` receives their
    outcome. */
module Config {
  import opened Models

  datatype AnthropicConfig = AnthropicConfig(
    apiKey: string,
    model: string,
    timeoutSeconds: int,
    maxTokens: int,
    chunkSizeChars: int,
    retryCount: int,
    retryDelaySeconds: int)

  datatype JiraConfig = JiraConfig(
    baseURL: string,
    username: string,
    apiToken: string,
    projectKey: string,
    timeout: int)

  datatype ProcessingConfig = ProcessingConfig(
    mode: string,
    outputDir: string,
    saveIntermediate: bool)

  datatype Config = Config(
    anthropic: AnthropicConfig,
    jira: JiraConfig,
    processing: ProcessingConfig)

  /** The value of a required field. */
  function FieldValue(c: Config, f: RequiredField): string {
    match f
    case APIKey => c.anthropic.apiKey
    case BaseURL => c.jira.baseURL
    case Username => c.jira.username
    case APIToken => c.jira.apiToken
    case ProjectKey => c.jira.projectKey
  }

  /** Position of a required field in the order the fields are checked. */
  function CheckOrder(f: RequiredField): nat {
    match f
    case APIKey => 0
    case BaseURL => 1
    case Username => 2
    case APIToken => 3
    case ProjectKey => 4
  }

  /** Config.Validate: no error exactly when every required field is set;
      otherwise the error names the first empty field in check order. */
  function Validate(c: Config): (r: Option<Error>)
    ensures r == None <==> forall f :: FieldValue(c, f) != ""
    ensures r != None ==> exists f :: (r == Some(Required(f)) && FieldValue(c, f) == ""
      && forall g :: CheckOrder(g) < CheckOrder(f) ==> FieldValue(c, g) != "")
  {
    if c.anthropic.apiKey == "" then
      assert FieldValue(c, APIKey) == "";
      Some(Required(APIKey))
    else if c.jira.baseURL == "" then
      assert FieldValue(c, BaseURL) == "";
      Some(Required(BaseURL))
    else if c.jira.username == "" then
      assert FieldValue(c, Username) == "";
      Some(Required(Username))
    else if c.jira.apiToken == "" then
      assert FieldValue(c, APIToken) == "";
      Some(Required(APIToken))
    else if c.jira.projectKey == "" then
      assert FieldValue(c, ProjectKey) == "";
      Some(Required(ProjectKey))
    else
      None
  }

  /** Validate reads only the five required fields: two configurations that
      agree on them get the same verdict, so a zero chunk size, retry count or
      any other tuning value is accepted. */
  lemma ValidateReadsOnlyRequired(c: Config, d: Config)
    requires forall f :: FieldValue(c, f) == FieldValue(d, f)
    ensures Validate(c) == Validate(d)
  {
    assert FieldValue(c, APIKey) == FieldValue(d, APIKey);
    assert FieldValue(c, BaseURL) == FieldValue(d, BaseURL);
    assert FieldValue(c, Username) == FieldValue(d, Username);
    assert FieldValue(c, APIToken) == FieldValue(d, APIToken);
    assert FieldValue(c, ProjectKey) == FieldValue(d, ProjectKey);
  }

  /** A configuration with every credential set passes validation whatever
      its chunk size and retry count, zero included. */
  lemma ValidateAcceptsZeroTuning(c: Config)
    requires forall f :: FieldValue(c, f) != ""
    ensures Validate(c.(anthropic := c.anthropic.(chunkSizeChars := 0, retryCount := 0))) == None
  {
    var d := c.(anthropic := c.anthropic.(chunkSizeChars := 0, retryCount := 0));
    assert forall f :: FieldValue(d, f) == FieldValue(c, f);
  }

  /** The validating half of LoadConfig: `parsed` is the outcome of reading
      and parsing the file. A configuration is returned only when it
      validates; a validation error is wrapped. */
  function LoadConfig(parsed: Result<Config>): (r: Result<Config>)
    ensures r.Success? <==> parsed.Success? && Validate(parsed.value) == None
    ensures r.Success? ==> r.value == parsed.value && forall f :: FieldValue(r.value, f) != ""
    ensures parsed.Success? && r.Failure? ==>
      exists f :: r.error == ValidationFailed(Required(f)) && FieldValue(parsed.value, f) == ""
    ensures parsed.Failure? ==> r == parsed
  {
    match parsed
    case Failure(e) => Failure(e)
    case Success(c) =>
      match Validate(c)
      case Some(e) => Failure(ValidationFailed(e))
      case None => Success(c)
  }
}
