/** One mirror job (package `mirror`): resolving each endpoint's
    credentials (`getAuth`) and the five-step pipeline of `Execute`.
    The host facilities and the git transport are inputs, so every
    outcome of theirs is covered. */
module Mirror {
  import opened Outcomes
  import opened ConfigFile
  import FilePath

  /** A transport credential: HTTP basic auth, or SSH public keys as the
      key loader builds them. */
  datatype Credential =
    | BasicAuth(username: string, password: string)
    | PublicKeys(user: string, signer: string)

  /** What `getAuth` needs from the host: the home directory lookup
      (`os.UserHomeDir`) and the key-file reader behind
      `ssh.NewPublicKeysFromFile`, which takes the SSH user, the key file and
      the passphrase and yields the key's signer. */
  datatype Host = Host(
    userHomeDir: Result<string, string>,
    loadKeys: (string, string, string) -> Result<string, string>)

  /** Why resolving one endpoint's credentials failed. */
  datatype AuthError =
    | HomeDirUnavailable(cause: string)
    | KeyLoadFailed(cause: string)
    | UnsupportedAuth(methodName: string)

  /** SSH user name the key loader is given. */
  const SshUser := "git"

  /** Username paired with an access token. */
  const TokenUser := "token"

  /** Name of the remote the mirror is pushed to. */
  const RemoteName := "source"

  /** True when `key` is absolute, `strings.HasPrefix(key, "/")`. */
  predicate IsAbsolute(key: string) {
    |key| > 0 && key[0] == '/'
  }

  /** The file an SSH key setting refers to: an absolute key as it is, a
      relative one joined under `<home>/.ssh`. The home directory is only
      consulted for a relative key. */
  function KeyFile(key: string, home: Result<string, string>): (r: Result<string, AuthError>)
    ensures IsAbsolute(key) ==> r == Success(key)
    ensures !IsAbsolute(key) && home.Failure? ==> r == Failure(HomeDirUnavailable(home.error))
    ensures !IsAbsolute(key) && home.Success? ==>
              r == Success(FilePath.Join([home.value, ".ssh", key]))
  {
    if IsAbsolute(key) then Success(key)
    else match home
      case Failure(e) => Failure(HomeDirUnavailable(e))
      case Success(h) => Success(FilePath.Join([h, ".ssh", key]))
  }

  /** The `ssh` branch of `getAuth`: find the key file, then load the
      keys for user `git` with an empty passphrase. */
  function SshAuth(key: string, host: Host): (r: Result<Option<Credential>, AuthError>)
    // success always carries SSH public keys for user `git`, whose signer
    // the loader produced from the key file with an empty passphrase
    ensures r.Success? ==>
              && r.value.Some? && r.value.value.PublicKeys? && r.value.value.user == SshUser
              && KeyFile(key, host.userHomeDir).Success?
              && host.loadKeys(SshUser, KeyFile(key, host.userHomeDir).value, "")
                 == Success(r.value.value.signer)
    // only the home lookup and the loader can fail
    ensures r.Failure? ==> r.error.HomeDirUnavailable? || r.error.KeyLoadFailed?
    ensures r.Failure? && r.error.HomeDirUnavailable? <==>
              !IsAbsolute(key) && host.userHomeDir.Failure?
    ensures !IsAbsolute(key) && host.userHomeDir.Failure? ==>
              r == Failure(HomeDirUnavailable(host.userHomeDir.error))
    ensures r.Failure? && r.error.KeyLoadFailed? ==>
              && KeyFile(key, host.userHomeDir).Success?
              && host.loadKeys(SshUser, KeyFile(key, host.userHomeDir).value, "")
                 == Failure(r.error.cause)
  {
    match KeyFile(key, host.userHomeDir)
    case Failure(e) => Failure(e)
    case Success(file) =>
      match host.loadKeys(SshUser, file, "")
      case Failure(e) => Failure(KeyLoadFailed(e))
      case Success(signer) => Success(Some(PublicKeys(SshUser, signer)))
  }

  /** An absolute key never consults the home directory: the outcome is the
      same whatever the lookup would return. */
  lemma AbsoluteKeyIgnoresHome(key: string, host: Host, home: Result<string, string>)
    requires IsAbsolute(key)
    ensures SshAuth(key, host) == SshAuth(key, host.(userHomeDir := home))
  {
  }

  /** `getAuth`: `None` stands for the nil credential of methods `none`
      and the empty string. */
  function GetAuth(a: Auth, host: Host): (r: Result<Option<Credential>, AuthError>)
    ensures a.methodName == "token" ==> r == Success(Some(BasicAuth(TokenUser, a.token)))
    ensures a.methodName == "basic" ==> r == Success(Some(BasicAuth(a.username, a.password)))
    ensures a.methodName == "ssh" ==> r == SshAuth(a.sshKey, host)
    ensures a.methodName == "ssh" && r.Success? ==>
              r.value.Some? && r.value.value.PublicKeys? && r.value.value.user == SshUser
    ensures a.methodName == "none" || a.methodName == "" ==> r == Success(None)
    ensures a.methodName !in KnownMethods <==> r == Failure(UnsupportedAuth(a.methodName))
  {
    if a.methodName == "token" then
      Success(Some(BasicAuth(TokenUser, a.token)))
    else if a.methodName == "basic" then
      Success(Some(BasicAuth(a.username, a.password)))
    else if a.methodName == "ssh" then
      SshAuth(a.sshKey, host)
    else if a.methodName == "none" || a.methodName == "" then
      Success(None)
    else
      Failure(UnsupportedAuth(a.methodName))
  }

  /** Settings that pass validation never reach the "unsupported auth
      method" branch of `getAuth`. */
  lemma ValidatedAuthIsSupported(a: Auth, host: Host)
    requires ValidateAuth(a).Pass?
    ensures GetAuth(a, host).Failure? ==> !GetAuth(a, host).error.UnsupportedAuth?
  {
  }

  /** With a clean absolute home directory, a clean relative key is loaded
      from `<home>/.ssh/<key>`. */
  lemma SshKeyUnderHome(a: Auth, host: Host)
    requires a.methodName == "ssh"
    requires host.userHomeDir.Success? && FilePath.CleanAbsolute(host.userHomeDir.value)
    requires FilePath.CleanRelative(a.sshKey)
    ensures var file := host.userHomeDir.value + "/.ssh/" + a.sshKey;
            GetAuth(a, host) == match host.loadKeys(SshUser, file, "")
                                case Failure(e) => Failure(KeyLoadFailed(e))
                                case Success(signer) => Success(Some(PublicKeys(SshUser, signer)))
  {
    FilePath.JoinUnderHome(host.userHomeDir.value, a.sshKey);
    assert FilePath.Split(a.sshKey)[0] != "";
  }

  /** With an absolute home directory, an SSH key is always loaded from an
      absolute path. */
  lemma SshKeyFileIsAbsolute(key: string, home: Result<string, string>)
    requires home.Success? ==> IsAbsolute(home.value)
    ensures KeyFile(key, home).Success? ==> IsAbsolute(KeyFile(key, home).value)
  {
  }

  /** The `Mirror` struct: one job's settings and the verbose flag. */
  datatype Job = Job(config: MirrorConfig, verbose: bool)

  /** Handle of an in-memory repository held by the transport. */
  datatype Repo = Repo(handle: nat)

  /** Options of the clone; `progress` is set when progress is written to
      standard output, and clear when the writer is the nil-file one. */
  datatype CloneOptions = CloneOptions(url: string, auth: Option<Credential>, mirror: bool, progress: bool)

  /** A remote to register on the cloned repository. */
  datatype RemoteConfig = RemoteConfig(name: string, urls: seq<string>)

  /** Options of the push. `refSpecs` and `force` are the options the push
      leaves unset: no explicit ref specs and no forced update. */
  datatype PushOptions = PushOptions(
    remoteName: string,
    auth: Option<Credential>,
    refSpecs: seq<string>,
    force: bool,
    progress: bool)

  /** The git library's three calls: clone into memory, add a remote
      (yielding the repository with that remote), push to a remote. */
  datatype Transport = Transport(
    clone: CloneOptions -> Result<Repo, string>,
    createRemote: (Repo, RemoteConfig) -> Result<Repo, string>,
    push: (Repo, PushOptions) -> Check<string>)

  /** One step of `Execute`, with what it is given. */
  datatype Step =
    | ResolveTargetAuth(auth: Auth)
    | ResolveSourceAuth(auth: Auth)
    | Clone(cloneOptions: CloneOptions)
    | CreateRemote(repo: Repo, remote: RemoteConfig)
    | Push(repo: Repo, pushOptions: PushOptions)
  {
    /** Where the step stands in the pipeline, from 0. */
    function Position(): nat {
      match this
      case ResolveTargetAuth(_) => 0
      case ResolveSourceAuth(_) => 1
      case Clone(_) => 2
      case CreateRemote(_, _) => 3
      case Push(_, _) => 4
    }
  }

  /** The error `Execute` returns, wrapping the failed step's cause. */
  datatype MirrorError =
    | TargetAuthFailed(authCause: AuthError)
    | SourceAuthFailed(authCause: AuthError)
    | CloneFailed(cause: string)
    | CreateRemoteFailed(cause: string)
    | PushFailed(cause: string)
  {
    /** Position of the step this error comes from. */
    function Position(): nat {
      match this
      case TargetAuthFailed(_) => 0
      case SourceAuthFailed(_) => 1
      case CloneFailed(_) => 2
      case CreateRemoteFailed(_) => 3
      case PushFailed(_) => 4
    }
  }

  /** The steps `Execute` attempted, in order, and what it returned. */
  datatype Execution = Execution(steps: seq<Step>, result: Check<MirrorError>)

  /** Number of steps in the pipeline. */
  const StepCount := 5

  /** What performing one step on its own yields, wrapped as `Execute`
      wraps it. */
  function StepOutcome(s: Step, host: Host, t: Transport): Check<MirrorError> {
    match s
    case ResolveTargetAuth(a) =>
      (match GetAuth(a, host) case Failure(e) => Fail(TargetAuthFailed(e)) case Success(_) => Pass)
    case ResolveSourceAuth(a) =>
      (match GetAuth(a, host) case Failure(e) => Fail(SourceAuthFailed(e)) case Success(_) => Pass)
    case Clone(o) =>
      (match t.clone(o) case Failure(e) => Fail(CloneFailed(e)) case Success(_) => Pass)
    case CreateRemote(repo, remote) =>
      (match t.createRemote(repo, remote) case Failure(e) => Fail(CreateRemoteFailed(e)) case Success(_) => Pass)
    case Push(repo, o) =>
      (match t.push(repo, o) case Fail(e) => Fail(PushFailed(e)) case Pass => Pass)
  }

  /** `Execute`: resolve the target's and the source's credentials, clone
      the target as a mirror, add the source as remote `source`, push to
      it. The first failing step ends the run and its wrapped error is the
      result; no later step is attempted. */
  function Execute(job: Job, host: Host, t: Transport): (r: Execution)
    // the steps attempted are a prefix of the pipeline, in order
    ensures 1 <= |r.steps| <= StepCount
    ensures forall i :: 0 <= i < |r.steps| ==> r.steps[i].Position() == i
    // every step before the last succeeded; the last decides the result
    ensures forall i :: 0 <= i < |r.steps| - 1 ==> StepOutcome(r.steps[i], host, t).Pass?
    ensures r.result == StepOutcome(r.steps[|r.steps| - 1], host, t)
    ensures r.result.Pass? <==>
              |r.steps| == StepCount && forall i :: 0 <= i < |r.steps| ==> StepOutcome(r.steps[i], host, t).Pass?
    ensures r.result.Fail? ==> r.result.error.Position() == |r.steps| - 1
  {
    var cfg := job.config;
    var s0 := ResolveTargetAuth(cfg.target.auth);
    match GetAuth(cfg.target.auth, host)
    case Failure(e) => Execution([s0], Fail(TargetAuthFailed(e)))
    case Success(targetAuth) =>
      var s1 := ResolveSourceAuth(cfg.source.auth);
      match GetAuth(cfg.source.auth, host)
      case Failure(e) => Execution([s0, s1], Fail(SourceAuthFailed(e)))
      case Success(sourceAuth) =>
        var s2 := Clone(CloneOptions(cfg.target.url, targetAuth, true, job.verbose));
        match t.clone(s2.cloneOptions)
        case Failure(e) => Execution([s0, s1, s2], Fail(CloneFailed(e)))
        case Success(repo) =>
          var s3 := CreateRemote(repo, RemoteConfig(RemoteName, [cfg.source.url]));
          match t.createRemote(repo, s3.remote)
          case Failure(e) => Execution([s0, s1, s2, s3], Fail(CreateRemoteFailed(e)))
          case Success(withRemote) =>
            var s4 := Push(withRemote, PushOptions(RemoteName, sourceAuth, [], false, job.verbose));
            match t.push(withRemote, s4.pushOptions)
            case Fail(e) => Execution([s0, s1, s2, s3, s4], Fail(PushFailed(e)))
            case Pass => Execution([s0, s1, s2, s3, s4], Pass)
  }

  /** What each step of `Execute` is given: the target's settings, then
      the source's; the clone gets the target URL, the target credential
      and mirror mode; the remote is `source` with the source URL as its
      only URL, added to the cloned repository; the push goes to `source`
      from that repository with the source credential, no ref specs and
      no forced update. Progress is reported iff the job is verbose. */
  lemma ExecuteStepInputs(job: Job, host: Host, t: Transport)
    ensures var r := Execute(job, host, t);
            && r.steps[0] == ResolveTargetAuth(job.config.target.auth)
            && (|r.steps| > 1 ==> r.steps[1] == ResolveSourceAuth(job.config.source.auth))
    ensures var r := Execute(job, host, t);
            |r.steps| > 2 ==>
              && GetAuth(job.config.target.auth, host).Success?
              && r.steps[2] == Clone(CloneOptions(job.config.target.url,
                                                  GetAuth(job.config.target.auth, host).value,
                                                  true, job.verbose))
    ensures var r := Execute(job, host, t);
            |r.steps| > 3 ==>
              && r.steps[2].Clone?
              && t.clone(r.steps[2].cloneOptions).Success?
              && r.steps[3] == CreateRemote(t.clone(r.steps[2].cloneOptions).value,
                                            RemoteConfig(RemoteName, [job.config.source.url]))
    ensures var r := Execute(job, host, t);
            |r.steps| > 4 ==>
              && GetAuth(job.config.source.auth, host).Success?
              && r.steps[3].CreateRemote?
              && t.createRemote(r.steps[3].repo, r.steps[3].remote).Success?
              && r.steps[4] == Push(t.createRemote(r.steps[3].repo, r.steps[3].remote).value,
                                    PushOptions(RemoteName, GetAuth(job.config.source.auth, host).value,
                                                [], false, job.verbose))
  {
  }

  /** A job whose settings pass validation never fails for an unsupported
      auth method, on either endpoint. */
  lemma ValidJobNeverUnsupported(job: Job, host: Host, t: Transport)
    requires ValidJob(job.config)
    ensures var r := Execute(job, host, t);
            r.result.Fail? ==> !(r.result.error.TargetAuthFailed? || r.result.error.SourceAuthFailed?)
                               || !r.result.error.authCause.UnsupportedAuth?
  {
  }
}
