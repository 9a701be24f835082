/** The decoded configuration file of git-mirror and its validation
    (package `config`). */
module ConfigFile {
  import opened Outcomes

  /** Authentication settings of one endpoint. `methodName` (the `method` key) is free text as
      decoded from YAML; only the fields of the chosen method matter. */
  datatype Auth = Auth(
    methodName: string,
    token: string,
    username: string,
    password: string,
    sshKey: string)

  /** One endpoint of a mirror job. */
  datatype Repository = Repository(url: string, auth: Auth)

  /** One mirror job: `target` is cloned, `source` is pushed to. */
  datatype MirrorConfig = MirrorConfig(name: string, target: Repository, source: Repository)

  /** The whole configuration file. */
  datatype Config = Config(mirrors: seq<MirrorConfig>)

  /** The method strings the validator accepts; `none` and the empty
      string both mean "no authentication". */
  const KnownMethods: set<string> := {"token", "basic", "ssh", "none", ""}

  datatype Side = Target | Source

  /** Why one endpoint's authentication settings were refused. */
  datatype AuthProblem =
    | TokenRequired
    | CredentialsRequired
    | SshKeyRequired
    | UnsupportedMethod(methodName: string)

  /** Why a configuration was refused. Every kind except `NoMirrors`
      names the job by its 1-based position, as the messages do. */
  datatype ValidationError =
    | NoMirrors
    | TargetUrlRequired(mirror: nat)
    | SourceUrlRequired(mirror: nat)
    | InvalidAuth(mirror: nat, side: Side, problem: AuthProblem)

  /** Why loading the configuration file failed. */
  datatype LoadError =
    | ReadFailed(cause: string)
    | ParseFailed(cause: string)
    | ValidationFailed(error: ValidationError)

  /** Declarative reading of the auth rules: a known method whose own
      required fields are non-empty. */
  predicate WellFormedAuth(a: Auth) {
    && a.methodName in KnownMethods
    && (a.methodName == "token" ==> a.token != "")
    && (a.methodName == "basic" ==> a.username != "" && a.password != "")
    && (a.methodName == "ssh" ==> a.sshKey != "")
  }

  /** A job both of whose URLs are present and both of whose auth
      settings are well formed. */
  predicate ValidJob(m: MirrorConfig) {
    && m.target.url != ""
    && m.source.url != ""
    && WellFormedAuth(m.target.auth)
    && WellFormedAuth(m.source.auth)
  }

  /** A configuration with at least one job, every job valid. */
  predicate ValidConfig(c: Config) {
    && |c.mirrors| > 0
    && forall i :: 0 <= i < |c.mirrors| ==> ValidJob(c.mirrors[i])
  }

  /** The fields that the given method reads; the others are ignored. */
  function RelevantFields(a: Auth): seq<string> {
    if a.methodName == "token" then [a.token]
    else if a.methodName == "basic" then [a.username, a.password]
    else if a.methodName == "ssh" then [a.sshKey]
    else []
  }

  /** `validateAuth`: the switch on the method string. */
  function ValidateAuth(a: Auth): (r: Check<AuthProblem>)
    ensures r.Pass? <==> WellFormedAuth(a)
    ensures r == Fail(TokenRequired) <==> a.methodName == "token" && a.token == ""
    ensures r == Fail(CredentialsRequired) <==>
              a.methodName == "basic" && (a.username == "" || a.password == "")
    ensures r == Fail(SshKeyRequired) <==> a.methodName == "ssh" && a.sshKey == ""
    ensures r == Fail(UnsupportedMethod(a.methodName)) <==> a.methodName !in KnownMethods
    ensures a.methodName == "none" || a.methodName == "" ==> r.Pass?
  {
    if a.methodName == "token" then
      if a.token == "" then Fail(TokenRequired) else Pass
    else if a.methodName == "basic" then
      if a.username == "" || a.password == "" then Fail(CredentialsRequired) else Pass
    else if a.methodName == "ssh" then
      if a.sshKey == "" then Fail(SshKeyRequired) else Pass
    else if a.methodName == "none" || a.methodName == "" then
      Pass
    else
      Fail(UnsupportedMethod(a.methodName))
  }

  /** Two settings with the same method that agree on the fields that
      method reads get the same verdict, whatever their other fields hold. */
  lemma IrrelevantFieldsIgnored(a: Auth, b: Auth)
    requires a.methodName == b.methodName
    requires RelevantFields(a) == RelevantFields(b)
    ensures ValidateAuth(a) == ValidateAuth(b)
  {
  }

  /** The body of the validation loop for the job at 1-based position
      `number`: target URL, source URL, target auth, source auth, in
      that order, stopping at the first failure. */
  function CheckMirror(m: MirrorConfig, number: nat): (r: Check<ValidationError>)
    ensures r.Pass? <==> ValidJob(m)
    ensures r.Fail? ==> !r.error.NoMirrors? && r.error.mirror == number
    ensures m.target.url == "" ==> r == Fail(TargetUrlRequired(number))
    ensures m.target.url != "" && m.source.url == "" ==> r == Fail(SourceUrlRequired(number))
    ensures m.target.url != "" && m.source.url != "" && !WellFormedAuth(m.target.auth) ==>
              r == Fail(InvalidAuth(number, Target, ValidateAuth(m.target.auth).error))
    ensures m.target.url != "" && m.source.url != "" && WellFormedAuth(m.target.auth)
              && !WellFormedAuth(m.source.auth) ==>
              r == Fail(InvalidAuth(number, Source, ValidateAuth(m.source.auth).error))
  {
    if m.target.url == "" then Fail(TargetUrlRequired(number))
    else if m.source.url == "" then Fail(SourceUrlRequired(number))
    else match ValidateAuth(m.target.auth)
      case Fail(p) => Fail(InvalidAuth(number, Target, p))
      case Pass =>
        match ValidateAuth(m.source.auth)
        case Fail(p) => Fail(InvalidAuth(number, Source, p))
        case Pass => Pass
  }

  /** `e` is the error of the first invalid job at or after index `from`. */
  predicate FirstFailureFrom(ms: seq<MirrorConfig>, from: nat, e: ValidationError) {
    && !e.NoMirrors?
    && from < e.mirror <= |ms|
    && (forall j :: from <= j < e.mirror - 1 ==> ValidJob(ms[j]))
    && CheckMirror(ms[e.mirror - 1], e.mirror) == Fail(e)
  }

  /** The validation loop, from index `from` on. */
  function ValidateFrom(ms: seq<MirrorConfig>, from: nat): (r: Check<ValidationError>)
    requires from <= |ms|
    ensures r.Pass? <==> forall j :: from <= j < |ms| ==> ValidJob(ms[j])
    ensures r.Fail? ==> FirstFailureFrom(ms, from, r.error)
    decreases |ms| - from
  {
    if from == |ms| then Pass
    else match CheckMirror(ms[from], from + 1)
      case Fail(e) => Fail(e)
      case Pass => ValidateFrom(ms, from + 1)
  }

  /** `validateConfig`: refuses an empty job list, then reports the first
      invalid job in list order. It only returns a verdict. */
  function ValidateConfig(c: Config): (r: Check<ValidationError>)
    ensures r.Pass? <==> ValidConfig(c)
    ensures |c.mirrors| == 0 <==> r == Fail(NoMirrors)
    ensures r.Fail? && |c.mirrors| > 0 ==> FirstFailureFrom(c.mirrors, 0, r.error)
  {
    if |c.mirrors| == 0 then Fail(NoMirrors) else ValidateFrom(c.mirrors, 0)
  }

  /** `LoadConfig` with the file read and the YAML decoder as inputs:
      `file` is what reading the file produced and `parse` stands for the
      decoder. A loaded configuration is the decoded one, unchanged. */
  function LoadConfig(file: Result<string, string>, parse: string -> Result<Config, string>)
    : (r: Result<Config, LoadError>)
    ensures file.Failure? ==> r == Failure(ReadFailed(file.error))
    ensures file.Success? && parse(file.value).Failure? ==>
              r == Failure(ParseFailed(parse(file.value).error))
    ensures r.Success? <==>
              file.Success? && parse(file.value).Success? && ValidConfig(parse(file.value).value)
    ensures r.Success? ==> r.value == parse(file.value).value
    ensures file.Success? && parse(file.value).Success? && !ValidConfig(parse(file.value).value) ==>
              r == Failure(ValidationFailed(ValidateConfig(parse(file.value).value).error))
  {
    match file
    case Failure(e) => Failure(ReadFailed(e))
    case Success(data) =>
      match parse(data)
      case Failure(e) => Failure(ParseFailed(e))
      case Success(c) =>
        match ValidateConfig(c)
        case Fail(e) => Failure(ValidationFailed(e))
        case Pass => Success(c)
  }
}
