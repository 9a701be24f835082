/** The `mirror` command's run (package `cmd`): load the configuration or
    stop, then run every job in order, going on past failed ones. */
module Cmd {
  import opened Outcomes
  import opened ConfigFile
  import opened Mirror

  /** What happened to one job: its 1-based position, its settings, the
      execution, and whether the success line was printed. */
  datatype JobReport = JobReport(number: nat, job: MirrorConfig, execution: Execution, announced: bool)

  /** A run either stops on a configuration error before any job, or
      completes with one report per job. */
  datatype RunResult = Aborted(error: LoadError) | Completed(reports: seq<JobReport>)

  /** One iteration of the loop: a fresh executor built from this job's
      settings and the verbose flag, run against the host and the transport
      as they are when the job's turn comes; a failure is logged and the
      loop continues, a success is announced only in verbose mode. */
  function RunJob(job: MirrorConfig, number: nat, verbose: bool, host: Host, t: Transport): JobReport {
    var execution := Execute(Job(job, verbose), host, t);
    JobReport(number, job, execution, verbose && execution.result.Pass?)
  }

  /** The loop over the jobs from 1-based position `first` on. The host and
      the transport job `n` meets are `hosts(n)` and `transports(n)`: the
      outside world may change between jobs (a transient network failure,
      a repository an earlier job just pushed to), while the loop itself
      carries nothing from one job to the next. */
  function RunJobs(jobs: seq<MirrorConfig>, first: nat, verbose: bool,
                   hosts: nat -> Host, transports: nat -> Transport): (r: seq<JobReport>)
    ensures |r| == |jobs|
    ensures forall i :: 0 <= i < |jobs| ==>
              r[i] == RunJob(jobs[i], first + i, verbose, hosts(first + i), transports(first + i))
    decreases |jobs|
  {
    if |jobs| == 0 then []
    else [RunJob(jobs[0], first, verbose, hosts(first), transports(first))]
         + RunJobs(jobs[1..], first + 1, verbose, hosts, transports)
  }

  /** The `Run` body of the `mirror` command. */
  function Run(file: Result<string, string>, parse: string -> Result<Config, string>, verbose: bool,
               hosts: nat -> Host, transports: nat -> Transport): (r: RunResult)
    ensures LoadConfig(file, parse).Failure? ==> r == Aborted(LoadConfig(file, parse).error)
    ensures LoadConfig(file, parse).Success? ==>
              var jobs := LoadConfig(file, parse).value.mirrors;
              && r.Completed?
              && |r.reports| == |jobs|
              && forall i :: 0 <= i < |jobs| ==>
                   && r.reports[i].number == i + 1
                   && r.reports[i].job == jobs[i]
                   && r.reports[i].execution
                      == Execute(Job(jobs[i], verbose), hosts(i + 1), transports(i + 1))
                   && (r.reports[i].announced <==> verbose && r.reports[i].execution.result.Pass?)
  {
    match LoadConfig(file, parse)
    case Failure(e) => Aborted(e)
    case Success(cfg) => Completed(RunJobs(cfg.mirrors, 1, verbose, hosts, transports))
  }

  /** The positions of the jobs whose execution failed, in order. */
  function FailedJobs(reports: seq<JobReport>): seq<nat>
    decreases |reports|
  {
    if |reports| == 0 then []
    else (if reports[0].execution.result.Fail? then [reports[0].number] else [])
         + FailedJobs(reports[1..])
  }

  /** Running two lists of jobs back to back is running each on its own,
      the second numbered on from the first: the loop carries no state from
      one job to the next. */
  lemma RunJobsAppend(xs: seq<MirrorConfig>, ys: seq<MirrorConfig>, first: nat,
                      verbose: bool, hosts: nat -> Host, transports: nat -> Transport)
    ensures RunJobs(xs + ys, first, verbose, hosts, transports)
            == RunJobs(xs, first, verbose, hosts, transports)
               + RunJobs(ys, first + |xs|, verbose, hosts, transports)
  {
    var whole := RunJobs(xs + ys, first, verbose, hosts, transports);
    var parts := RunJobs(xs, first, verbose, hosts, transports)
                 + RunJobs(ys, first + |xs|, verbose, hosts, transports);
    forall i | 0 <= i < |whole| ensures whole[i] == parts[i] {
      if i < |xs| {
        assert (xs + ys)[i] == xs[i];
      } else {
        assert (xs + ys)[i] == ys[i - |xs|];
      }
    }
  }

  /** Reports all of whose executions succeeded list no failure. */
  lemma {:induction false} NoFailures(reports: seq<JobReport>)
    requires forall i :: 0 <= i < |reports| ==> reports[i].execution.result.Pass?
    ensures FailedJobs(reports) == []
    decreases |reports|
  {
    if |reports| > 0 {
      NoFailures(reports[1..]);
    }
  }

  /** Reports in which only the `k`-th execution failed list exactly that
      report's job. */
  lemma {:induction false} SingleFailure(reports: seq<JobReport>, k: nat)
    requires k < |reports|
    requires reports[k].execution.result.Fail?
    requires forall i :: 0 <= i < |reports| && i != k ==> reports[i].execution.result.Pass?
    ensures FailedJobs(reports) == [reports[k].number]
    decreases |reports|
  {
    if k == 0 {
      NoFailures(reports[1..]);
    } else {
      SingleFailure(reports[1..], k - 1);
    }
  }

  /** Report `i` of a batch is numbered `first + i` and passed exactly
      when job `i`'s execution, against the host and transport of its turn,
      passed. */
  lemma ReportsPass(jobs: seq<MirrorConfig>, first: nat, verbose: bool,
                    hosts: nat -> Host, transports: nat -> Transport)
    ensures var reports := RunJobs(jobs, first, verbose, hosts, transports);
            && |reports| == |jobs|
            && forall i :: 0 <= i < |jobs| ==>
                 && reports[i].number == first + i
                 && (reports[i].execution.result.Pass?
                     <==> Execute(Job(jobs[i], verbose), hosts(first + i), transports(first + i)).result.Pass?)
  {
  }

  /** When job `k` is the only one whose execution fails, the batch still
      runs every job, the jobs after `k` succeed, and exactly one failure is
      reported, that of job `k`. */
  lemma OnlyFailureReported(jobs: seq<MirrorConfig>, first: nat, k: nat, verbose: bool,
                            hosts: nat -> Host, transports: nat -> Transport)
    requires k < |jobs|
    requires Execute(Job(jobs[k], verbose), hosts(first + k), transports(first + k)).result.Fail?
    requires forall i :: 0 <= i < |jobs| && i != k ==>
               Execute(Job(jobs[i], verbose), hosts(first + i), transports(first + i)).result.Pass?
    ensures |RunJobs(jobs, first, verbose, hosts, transports)| == |jobs|
    ensures forall i :: k < i < |jobs| ==> RunJobs(jobs, first, verbose, hosts, transports)[i].execution.result.Pass?
    ensures FailedJobs(RunJobs(jobs, first, verbose, hosts, transports)) == [first + k]
  {
    ReportsPass(jobs, first, verbose, hosts, transports);
    SingleFailure(RunJobs(jobs, first, verbose, hosts, transports), k);
  }

  /** A host whose home-directory lookup and key-file reads all succeed. */
  function SteadyHost(n: nat): Host {
    Host(Success("/home/git"), (user, file, passphrase) => Success("signer"))
  }

  /** A transport whose clone meets a network failure for job 1 only, and
      whose other calls always succeed. */
  function FlakyTransport(n: nat): Transport {
    Transport(
      o => if n == 1 then Failure("network unreachable") else Success(Repo(0)),
      (repo, remote) => Success(repo),
      (repo, o) => Pass)
  }

  /** The same job configured twice can fail the first time and succeed the
      second: with a transient clone failure, the run reports job 1 alone as
      failed. */
  lemma RepeatedJobCanFailOnce(job: MirrorConfig, verbose: bool)
    requires ValidJob(job)
    ensures FailedJobs(RunJobs([job, job], 1, verbose, SteadyHost, FlakyTransport)) == [1]
  {
    OnlyFailureReported([job, job], 1, 0, verbose, SteadyHost, FlakyTransport);
  }

  /** Every job of a completed run passed validation, so no job fails
      for an unsupported auth method. */
  lemma CompletedRunNeverUnsupported(file: Result<string, string>, parse: string -> Result<Config, string>,
                                     verbose: bool, hosts: nat -> Host, transports: nat -> Transport)
    ensures var r := Run(file, parse, verbose, hosts, transports);
            r.Completed? ==>
              forall i :: 0 <= i < |r.reports| ==>
                var result := r.reports[i].execution.result;
                result.Fail? ==> !(result.error.TargetAuthFailed? || result.error.SourceAuthFailed?)
                                 || !result.error.authCause.UnsupportedAuth?
  {
  }
}
