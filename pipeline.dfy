/**
 * The scanning action's `main`: read the configuration, authenticate, build every
 * target's Gemfile, scan every collected record, merge the findings and print them.
 */
module Pipeline {
  import opened Wrappers
  import opened Arrival
  import opened Config
  import opened Aggregate
  import opened Gemfile
  import opened Manifest
  import opened Snyk
  import opened Report

  /** How `main` ends: `log.Fatal` with a message, or the printed output and the exit status. */
  datatype Outcome = Fatal(message: string) | Finished(output: string, exitCode: int)

  /**
   * The message `log.Fatal` prints when the configuration is incomplete; the error text
   * follows it directly, since `fmt.Sprint` puts no space after a string operand.
   */
  const SETUP_FAILED: string := "couldn't setup the env vars"

  const AUTH_FAILED: string := "couldn't auth snyk!"

  /** The three settings `getEnvVar` of the scanning action requires. */
  predicate Configured(env: Env)
  {
    Getenv(env, "INPUT_SNYKTOKEN") != "" && Getenv(env, "INPUT_SNYKORG") != "" && Getenv(env, "GITHUB_WORKSPACE") != ""
  }

  /** The settings every scan takes from the environment. */
  function SettingsOf(env: Env): ScanSettings
  {
    ScanSettings(Getenv(env, "INPUT_SNYKORG"), SanitizeBranch(Getenv(env, "INPUT_BRANCH")), Getenv(env, "INPUT_NOMONITOR") != "")
  }

  /** The findings each target's scan hands to the aggregator, in target order. */
  function TargetFindings(vDeps: seq<DepsOut>, failures: seq<Option<BuildStep>>, settings: ScanSettings,
                          ctx: ScanContext, scans: seq<ScanOracle>): seq<seq<VulnReport>>
    requires |failures| == |vDeps| && |scans| == |vDeps|
  {
    seq(|vDeps|, i requires 0 <= i < |vDeps| => RunSnyk(Record(vDeps[i], failures[i]), settings, ctx, scans[i]))
  }

  /**
   * `main` of the scanning action. The processes and the file system are reduced to their
   * outcomes: `authEnd` for `snyk auth`, `buildFailures[i]` for target i's build,
   * `scans[i]` for the scan of the record target i sent; `buildArrival` and `scanArrival`
   * are the orders in which the two channels deliver; `cwd` is the working directory the
   * scans run in. The findings merged, and so the key set printed, do not depend on either order.
   */
  method SnykMain(env: Env, authEnd: ProcessEnd, vDeps: seq<DepsOut>, buildFailures: seq<Option<BuildStep>>,
                  buildArrival: seq<nat>, cwd: string, scans: seq<ScanOracle>, scanArrival: seq<nat>)
    returns (outcome: Outcome, p: seq<ProcessOut>, totalVulns: seq<VulnReport>)
    requires |buildFailures| == |vDeps| && |scans| == |vDeps|
    requires IsArrivalOrder(buildArrival, |vDeps|) && IsArrivalOrder(scanArrival, |vDeps|)
    ensures outcome.Finished? <==> Configured(env) && authEnd == Exited(0)
    ensures !Configured(env) ==> outcome.Fatal? && SETUP_FAILED <= outcome.message
    ensures Configured(env) && authEnd != Exited(0) ==> outcome == Fatal(AUTH_FAILED)
    ensures outcome.Finished? ==> multiset(p) == multiset(Records(vDeps, buildFailures))
    ensures outcome.Finished? ==>
      var found := Flatten(TargetFindings(vDeps, buildFailures, SettingsOf(env),
                                          ScanContext(cwd, Getenv(env, "GITHUB_REPOSITORY")), scans));
      && NoDuplicateKeys(totalVulns)
      && Keys(totalVulns) == Keys(found)
      && (forall v :: v in totalVulns ==> v in found)
      && outcome.output == OutputLine(totalVulns)
      && outcome.exitCode == 0
  {
    p, totalVulns := [], [];
    var confResult := GetSnykEnvVar(env);
    if confResult.Err? {
      outcome := Fatal(SETUP_FAILED + confResult.error);
      return;
    }
    var conf := confResult.value;
    // os.Chdir(conf.GithubWorkspace): `cwd` is the directory the scans then see
    if RunError(authEnd).Some? {
      outcome := Fatal(AUTH_FAILED);
      return;
    }
    var gemfiles;
    gemfiles, p := BuildStage(vDeps, buildFailures, buildArrival);
    var settings := ScanSettings(conf.snykOrg, conf.branch, conf.noMonitor);
    var ctx := ScanContext(cwd, Getenv(env, "GITHUB_REPOSITORY"));
    var sent := ScanStage(vDeps, buildFailures, buildArrival, p, settings, ctx, scans);
    var received := Receive(sent, scanArrival);
    totalVulns := Merge(received);
    var line, exitCode := SetOutput(totalVulns);
    outcome := Finished(line, exitCode);
    FoundAsTargets(TargetFindings(vDeps, buildFailures, settings, ctx, scans), received, totalVulns);
  }

  /**
   * The dispatch loop of `main`: one scan per collected record, zero records included.
   * The k-th record came from target `arrival[k]`, whose scan ends as `scans[arrival[k]]`.
   */
  method ScanStage(vDeps: seq<DepsOut>, failures: seq<Option<BuildStep>>, arrival: seq<nat>, p: seq<ProcessOut>,
                   settings: ScanSettings, ctx: ScanContext, scans: seq<ScanOracle>) returns (sent: seq<seq<VulnReport>>)
    requires |failures| == |vDeps| && |scans| == |vDeps|
    requires IsArrivalOrder(arrival, |vDeps|)
    requires InRange(arrival, |vDeps|) && p == Select(Records(vDeps, failures), arrival)
    ensures |sent| == |p| && forall k :: 0 <= k < |p| ==> sent[k] == RunSnyk(p[k], settings, ctx, scans[arrival[k]])
    ensures multiset(sent) == multiset(TargetFindings(vDeps, failures, settings, ctx, scans))
  {
    sent := [];
    for k := 0 to |p|
      invariant |sent| == k
      invariant forall j :: 0 <= j < k ==> sent[j] == RunSnyk(p[j], settings, ctx, scans[arrival[j]])
    {
      var findings := RunSnyk(p[k], settings, ctx, scans[arrival[k]]);
      sent := sent + [findings];
    }
    ScannedAsTargets(vDeps, failures, settings, ctx, scans, arrival, p, sent);
  }

  /** The scans started for the collected records are the targets' scans, in the order the records came. */
  lemma ScannedAsTargets(vDeps: seq<DepsOut>, failures: seq<Option<BuildStep>>, settings: ScanSettings,
                         ctx: ScanContext, scans: seq<ScanOracle>, arrival: seq<nat>,
                         p: seq<ProcessOut>, sent: seq<seq<VulnReport>>)
    requires |failures| == |vDeps| && |scans| == |vDeps|
    requires IsArrivalOrder(arrival, |vDeps|)
    requires InRange(arrival, |vDeps|) && p == Select(Records(vDeps, failures), arrival)
    requires |sent| == |p| && forall j :: 0 <= j < |p| ==> sent[j] == RunSnyk(p[j], settings, ctx, scans[arrival[j]])
    ensures InRange(arrival, |vDeps|) && sent == Select(TargetFindings(vDeps, failures, settings, ctx, scans), arrival)
    ensures multiset(sent) == multiset(TargetFindings(vDeps, failures, settings, ctx, scans))
  {
    var tf := TargetFindings(vDeps, failures, settings, ctx, scans);
    assert sent == Select(tf, arrival);
    ArrivalPreservesMessages(tf, arrival);
  }

  /** Merging results that are a rearrangement of the targets' findings keeps their keys and invents no finding. */
  lemma FoundAsTargets(targets: seq<seq<VulnReport>>, received: seq<seq<VulnReport>>, totalVulns: seq<VulnReport>)
    requires multiset(received) == multiset(targets)
    requires totalVulns == FirstOccurrences(Flatten(received), {})
    ensures Keys(totalVulns) == Keys(Flatten(targets))
    ensures forall v :: v in totalVulns ==> v in Flatten(targets)
  {
    MergedKeysOrderIndependent(targets, received);
    forall v | v in totalVulns ensures v in Flatten(targets) {
      InFlatten(received, v);
      var r :| r in received && v in r;
      assert r in multiset(received);
      InFlatten(targets, v);
    }
  }
}
