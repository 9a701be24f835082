# git-mirror, modelled in Dafny

git-mirror copies a "target" git repository onto a "source" repository,
once per configured mirror job. This project models its decision logic as
pure functions over immutable datatypes:

- `Outcomes` (`outcomes.dfy`): the `Option`, `Result` and `Check` outcome
  types every other module uses in place of Go's `(value, error)` pairs.
- `ConfigFile` (`config.dfy`): the decoded configuration
  (`Config`, `MirrorConfig`, `Repository`, `Auth`) and its eager validation.
  `validateAuth` and `validateConfig` return a verdict only. Errors are
  datatypes that carry the job's 1-based number, the endpoint side and the
  problem.
- `FilePath` (`filepath.dfy`): the lexical `filepath.Join`/`Clean` that
  `getAuth` uses to put a relative SSH key under `<home>/.ssh`.
- `Mirror` (`mirror.dfy`): `getAuth` credential resolution, and `Execute`
  as a five-step short-circuit pipeline. The pipeline records the steps it
  attempted, in order.
- `Cmd` (`cmd.dfy`): the `mirror` command's `Run`. It loads the
  configuration or aborts, then folds over the jobs in order, going on past
  failed ones.

Some effects are not modelled directly and are taken as inputs instead:
- the file read and the YAML decoder;
- the home-directory lookup and the SSH key-file reader (`Host`);
- the git library's clone, create-remote and push (`Transport`).

Within one job, `Host` and `Transport` are arbitrary functions of what they
are given, so every contract holds whatever those functions return. Across
jobs the outside world may change: job `n` meets `hosts(n)` and
`transports(n)`. The loop itself carries no state from one job to the next.

Where descriptions of the tool and the code differ, the model follows the
code:
- The push is sometimes described as a forced mirror push. The code's
  `PushOptions` set only the remote name, the credential and the progress
  sink (`internal/mirror/mirror.go:79-83`). So the modelled push carries
  no ref specs and `force == false`.
- A relative SSH key is sometimes described as ending up at
  `home + "/.ssh/" + key`. The code uses `filepath.Join`, which also cleans
  the path. The two agree only for a clean home and a clean key
  (`FilePath.JoinUnderHome`). A key such as `../id_rsa` leaves `.ssh`
  (`FilePath.ParentKeyLeavesSshDir`).

## Model

| member | source | states |
|---|---|---|
| ConfigFile.ValidateAuth | internal/config/config.go:72-92 | passes iff the method is one of token, basic, ssh, none, "" and that method's required fields are non-empty; each refusal names its cause (missing token, missing username or password, missing key, unsupported method) exactly when that cause applies; none and "" always pass |
| ConfigFile.IrrelevantFieldsIgnored | internal/config/config.go:74-85 | two settings with the same method that agree on the fields this method reads get the same verdict, whatever their other fields hold |
| ConfigFile.CheckMirror | internal/config/config.go:55-66 | one job passes iff both URLs are non-empty and both auth settings are well formed; an empty target URL is reported before an empty source URL, both before target auth, which is before source auth; every error carries the job's number |
| ConfigFile.ValidateFrom | internal/config/config.go:54-69 | the loop passes iff every job from the given index on is valid; otherwise its error is that of the first invalid job, with all jobs before it valid |
| ConfigFile.ValidateConfig | internal/config/config.go:49-70 | an empty job list is refused (and only that yields NoMirrors); passes iff the list is non-empty and every job is valid; otherwise reports the first invalid job in list order |
| ConfigFile.LoadConfig | internal/config/config.go:31-47 | a read failure and a parse failure are reported as such; loading succeeds iff the file was read, decoded and the result validates; the loaded configuration is the decoded one, unchanged; a validation failure is reported with the validator's own error (so an empty list gives NoMirrors and an invalid job its number and problem) |
| FilePath.CleanKeepsRoot | internal/mirror/mirror.go:114 | the cleaned path is never empty and is absolute exactly when its input was |
| FilePath.JoinUnderHome | internal/mirror/mirror.go:108-115 | for a clean absolute home and a clean relative key, joining home, `.ssh` and key is `home + "/.ssh/" + key` |
| FilePath.ParentKeyLeavesSshDir | internal/mirror/mirror.go:114 | a key `../name` under a clean home joins to `home/name`, which differs from the plain concatenation |
| Mirror.KeyFile | internal/mirror/mirror.go:107-115 | an absolute key is used unchanged without consulting the home directory; a relative key fails with the home-directory error when the lookup fails, and is otherwise joined under `<home>/.ssh` |
| Mirror.SshAuth | internal/mirror/mirror.go:107-121 | success always yields SSH public keys for user "git" whose signer the loader read from the key file with an empty passphrase; the only failures are a home-directory error, raised exactly for a relative key with a failed lookup and carrying the lookup's own error, and a key-load error carrying the loader's cause |
| Mirror.AbsoluteKeyIgnoresHome | internal/mirror/mirror.go:108-115 | for an absolute key the outcome is the same whatever the home-directory lookup returns |
| Mirror.GetAuth | internal/mirror/mirror.go:95-127 | token gives basic auth with user "token" and the token as password; basic copies username and password; none and "" give no credential and no error; ssh yields public keys for user "git" loaded from the key file, never a basic-auth credential, and a home or loader failure is an error; the unsupported-method error arises iff the method is not one of the five known ones |
| Mirror.ValidatedAuthIsSupported | internal/mirror/mirror.go:95-127 | settings that pass validation never reach the unsupported-method branch |
| Mirror.SshKeyUnderHome | internal/mirror/mirror.go:107-121 | with a clean absolute home and a clean relative key, the loader is called on `home + "/.ssh/" + key`; its failure becomes a key-load error and its signer becomes public keys for user "git" |
| Mirror.SshKeyFileIsAbsolute | internal/mirror/mirror.go:107-115 | with an absolute home directory, the key file handed to the loader is always absolute |
| Mirror.Execute | internal/mirror/mirror.go:29-93 | the attempted steps are a non-empty prefix of target auth, source auth, clone, create remote, push, in that order; every attempted step but the last succeeded and the last one decides the result, so nothing runs after the first failure; the result is success iff all five steps ran and succeeded, and otherwise the wrapped error of the failing step |
| Mirror.ExecuteStepInputs | internal/mirror/mirror.go:35-83 | the auth steps get the target's and then the source's settings; the clone gets the target URL, the resolved target credential and mirror mode; the remote is "source" with the source URL as its only URL, added to the cloned repository; the push goes from that repository to "source" with the resolved source credential, no ref specs and no force; progress follows the verbose flag |
| Mirror.ValidJobNeverUnsupported | internal/mirror/mirror.go:34-44 | a job that passes validation never fails for an unsupported auth method on either endpoint |
| Cmd.RunJobs | pkg/cmd/mirror.go:26-40 | one report per job, in configured order, numbered consecutively; report n is job n's own execution against the host and transport it met, and the loop continues past failures |
| Cmd.Run | pkg/cmd/mirror.go:16-41 | a configuration load failure aborts the run with that error and runs no job; otherwise every configured job is run exactly once, in order, numbered from 1, its executor built from that job's own settings and the verbose flag; the success line is printed iff verbose is set and that job's execution succeeded |
| Cmd.RunJobsAppend | pkg/cmd/mirror.go:26-40 | running two job lists back to back is running each on its own with the second numbered on from the first: the loop carries no state from one job to the next |
| Cmd.ReportsPass | pkg/cmd/mirror.go:26-35 | report i of a batch is numbered first+i and passed exactly when job i's execution against the host and transport of its turn passed |
| Cmd.OnlyFailureReported | pkg/cmd/mirror.go:32-35 | when only job k fails, the batch still runs every job, the jobs after k run and succeed, and exactly one failure is reported, for job k |
| Cmd.RepeatedJobCanFailOnce | pkg/cmd/mirror.go:26-35 | a valid job configured twice whose first clone meets a network failure is reported failed once, as job 1, and succeeds as job 2 |
| Cmd.NoFailures | pkg/cmd/mirror.go:32-35 | job reports whose executions all succeeded list no failed job |
| Cmd.SingleFailure | pkg/cmd/mirror.go:32-35 | job reports in which only the k-th execution failed list exactly the k-th job as failed |
| Cmd.CompletedRunNeverUnsupported | pkg/cmd/mirror.go:17-35 | in a run that got past configuration loading, no job fails for an unsupported auth method |

## Left out

- Reading the file and decoding YAML (`internal/config/config.go:32-40`):
  I/O and a foreign parser. They are inputs to `LoadConfig`: the read
  outcome and a decoder function.
- The git library (`git.Clone` into memory storage, `CreateRemote`,
  `Push`): these are foreign network calls. They are the `Transport`
  input. The repository is an abstract handle, and a successful
  create-remote yields the repository that has the remote.
- Ref transfer itself: no claim is made that the push is forced or mirrors
  deletions. The model only records that the push options set none of
  this.
- `os.UserHomeDir` and the key-file reading inside
  `ssh.NewPublicKeysFromFile`: OS and key-file access, taken from `Host`.
  The reader yields the signer as an opaque string; the model builds the
  public-keys credential for user "git" around it.
- The source of `filepath.Join` and `filepath.Clean`, which belong to Go's
  standard library: `FilePath` models them from their documented lexical
  rules for Unix paths, not from their code.
- Change of the outside world during one job: both auth steps of a job
  consult the same `Host`, and the clone, create-remote and push the same
  `Transport`. Each of these is a function of its arguments, so two
  identical calls within one job agree. Across jobs they may differ.
- Printing and logging: the "skipping auth..." line, the verbose progress
  lines and the `log.Printf` failure line. Only the verbose success line
  is modelled, as `JobReport.announced`. The failure line is logged
  exactly when the execution fails.
- `getProgressWriter` (`internal/mirror/mirror.go:129-134`) is modelled
  only as the `progress` flag of the clone and push options, which equals
  the verbose flag. When the job is not verbose, Go passes a nil `*os.File`
  wrapped in an `io.Writer`, which is not a nil writer; `progress == false`
  stands for that value, not for an absent writer.
- Error message texts: errors are datatypes. The `%w` wrapping is modelled
  by carrying the cause.
- `log.Fatalf`'s process exit is modelled as the `Aborted` result.
- `pkg/cmd/validate.go`, `pkg/cmd/root.go` and `internal/git/repo.go`: they
  only print the configuration, wire flags, or are unused by the mirror
  command. `verbose` is passed explicitly instead of read from a global.
