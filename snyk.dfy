/**
 * One target's scan: the `snyk monitor` and `snyk test` command lines, how the action
 * reads the way each process ended, and what `runSnyk` hands to the aggregator.
 */
module Snyk {
  import opened Wrappers
  import opened Strings
  import Paths
  import Config
  import opened Aggregate
  import opened Gemfile
  import opened Manifest

  // ---------------------------------------------------------------------
  // Target reference

  /** The `--target-reference` argument: the project, prefixed by `<branch>_` when a branch is set. */
  function TargetReference(branch: string, project: string): string
  {
    if branch == "" then "--target-reference=" + project
    else "--target-reference=" + branch + "_" + project
  }

  /** Within one run the branch is fixed, and the reference tells the projects apart. */
  lemma TargetReferenceSeparatesProjects(branch: string, project1: string, project2: string)
    requires TargetReference(branch, project1) == TargetReference(branch, project2)
    ensures project1 == project2
  {
    var prefix := if branch == "" then "--target-reference=" else "--target-reference=" + branch + "_";
    assert TargetReference(branch, project1) == prefix + project1;
    assert TargetReference(branch, project2) == prefix + project2;
    assert project1 == (prefix + project1)[|prefix|..];
    assert project2 == (prefix + project2)[|prefix|..];
  }

  /** With a non-empty sanitised branch, branch and project can both be read back from the reference. */
  lemma TargetReferenceReadBack(branch1: string, project1: string, branch2: string, project2: string)
    requires branch1 != "" && branch2 != ""
    requires '_' !in branch1 && '_' !in branch2
    requires TargetReference(branch1, project1) == TargetReference(branch2, project2)
    ensures branch1 == branch2 && project1 == project2
  {
    var prefix := "--target-reference=";
    var tail1 := branch1 + "_" + project1;
    var tail2 := branch2 + "_" + project2;
    assert TargetReference(branch1, project1) == prefix + tail1;
    assert TargetReference(branch2, project2) == prefix + tail2;
    assert tail1 == (prefix + tail1)[|prefix|..];
    assert tail2 == (prefix + tail2)[|prefix|..];
    UnderscoreSplit(branch1, project1, branch2, project2);
  }

  /** Sanitised branches hold no `_`, so a non-empty one can always be read back from the reference. */
  lemma SanitizedReferenceReadBack(rawBranch1: string, project1: string, rawBranch2: string, project2: string)
    requires Config.SanitizeBranch(rawBranch1) != "" && Config.SanitizeBranch(rawBranch2) != ""
    requires TargetReference(Config.SanitizeBranch(rawBranch1), project1)
      == TargetReference(Config.SanitizeBranch(rawBranch2), project2)
    ensures Config.SanitizeBranch(rawBranch1) == Config.SanitizeBranch(rawBranch2) && project1 == project2
  {
    TargetReferenceReadBack(Config.SanitizeBranch(rawBranch1), project1, Config.SanitizeBranch(rawBranch2), project2);
  }

  // ---------------------------------------------------------------------
  // How a process ended, and the error `Run` reports for it

  /**
   * How a `snyk` process ended: it exited with a status, a signal killed it, the executable
   * was not found, or it could not be started (`fork/exec`).
   */
  datatype ProcessEnd =
    | Exited(code: nat)
    | Signaled(signal: string)
    | NotFound(name: string, reason: string)
    | StartFailed(path: string, reason: string)

  /** The text of the error `Cmd.Run` returns for `e`; None when the process exited with status 0. */
  function RunError(e: ProcessEnd): (err: Option<string>)
    ensures err.None? <==> e == Exited(0)
  {
    match e
    case Exited(code) => if code == 0 then None else Some("exit status " + Decimal(code))
    case Signaled(signal) => Some("signal: " + signal)
    case NotFound(name, reason) => Some("exec: \"" + name + "\": " + reason)
    case StartFailed(path, reason) => Some("fork/exec " + path + ": " + reason)
  }

  /** `snykTest`'s verdict on `snyk test`: an error that is not exactly "exit status 1" fails the scan. */
  predicate TestFails(e: ProcessEnd)
  {
    RunError(e).Some? && RunError(e).value != "exit status 1"
  }

  /** The code's rule, per way of ending: only exit status 1 (findings) is tolerated besides success. */
  lemma TestFailsIff(e: ProcessEnd)
    ensures TestFails(e) <==> !(e == Exited(0) || e == Exited(1))
  {
    var one := "exit status 1";
    match e
    case Exited(code) =>
      if code == 1 {
        assert Decimal(1) == "1";
      } else if code != 0 {
        DecimalRoundTrip(code);
        assert DigitsValue("1") == 1;
        assert Decimal(code) != "1";
        var text := "exit status " + Decimal(code);
        assert text[12..] == Decimal(code);
        assert one[12..] == "1";
      }
    case Signaled(signal) =>
      assert RunError(e).value[0] == 's' != one[0];
    case NotFound(name, reason) =>
      assert RunError(e).value[2] == 'e' != one[2];
    case StartFailed(path, reason) =>
      assert RunError(e).value[0] == 'f' != one[0];
  }

  /** Exit status 2 fails the scan, although the comment beside the check names it with status 1. */
  lemma ExitStatusTwoFails()
    ensures TestFails(Exited(2))
  {
    TestFailsIff(Exited(2));
  }

  // ---------------------------------------------------------------------
  // Command lines

  /** The lockfile `bundle lock` writes beside the Gemfile. */
  const LOCKFILE_NAME: string := "Gemfile.lock"

  /** `--file=<cwd>/<filepath.Join(path, "Gemfile.lock")>`. */
  function LockfileArg(cwd: string, path: string): string
  {
    "--file=" + cwd + "/" + Paths.Join2(path, LOCKFILE_NAME)
  }

  lemma LockfileNameIsPlain()
    ensures Paths.IsNormalElement(LOCKFILE_NAME) && '/' !in LOCKFILE_NAME
  {
  }

  /** The zero record of a failed build is scanned against the working directory's own lockfile. */
  lemma ZeroRecordLockfile(cwd: string)
    ensures LockfileArg(cwd, ZERO_RECORD.path) == "--file=" + cwd + "/" + LOCKFILE_NAME
  {
    LockfileNameIsPlain();
    Paths.Join2EmptyDirectory(LOCKFILE_NAME);
  }

  /** A successful record is scanned against the lockfile in its own output directory. */
  lemma LockfileInOutputDir(cwd: string, project: string, platform: string)
    requires '/' !in project && '/' !in platform
    ensures LockfileArg(cwd, OutputPath(project, platform))
      == "--file=" + cwd + "/" + LOCKFILE_DIR + "/" + project + "_" + platform + "/" + LOCKFILE_NAME
  {
    var folder := OutputFolder(project, platform);
    assert folder[|project|] == '_';
    LockfileDirIsPlain();
    Paths.Join2Plain(LOCKFILE_DIR, folder);
    LockfileNameIsPlain();
    Paths.Join2PlainUnder(LOCKFILE_DIR, folder, LOCKFILE_NAME);
  }

  /** The settings a scan takes from the configuration. */
  datatype ScanSettings = ScanSettings(org: string, branch: string, noMonitor: bool)

  /** The working directory and `GITHUB_REPOSITORY`, as a scan reads them. */
  datatype ScanContext = ScanContext(cwd: string, repository: string)

  function MonitorCommand(settings: ScanSettings, ctx: ScanContext, project: string, platform: string, fileArg: string): seq<string>
  {
    ["snyk", "monitor", TargetReference(settings.branch, project),
     "--remote-repo-url=https://github.com/" + ctx.repository + ".git",
     "--org=" + settings.org, "--project-name=" + platform, fileArg]
  }

  function TestCommand(fileArg: string): seq<string>
  {
    ["snyk", "test", "--severity-threshold=medium", "--json", fileArg]
  }

  // ---------------------------------------------------------------------
  // snykTest and runSnyk

  /**
   * How the two processes of one target's scan end, and the findings the JSON that
   * `snyk test` prints holds once parsed.
   */
  datatype ScanOracle = ScanOracle(monitorEnd: ProcessEnd, testEnd: ProcessEnd, reported: seq<VulnReport>)

  /** The commands a scan started, in order, and what it returned: the findings or the error text. */
  datatype TestRun = TestRun(commands: seq<seq<string>>, outcome: Result<seq<VulnReport>, string>)

  /** `snykTest(path, project, platform, org, branch, noMonitor)` with the processes ending as `oracle` says. */
  function SnykTest(path: string, project: string, platform: string, settings: ScanSettings,
                    ctx: ScanContext, oracle: ScanOracle): TestRun
  {
    var fileArg := LockfileArg(ctx.cwd, path);
    var monitor := MonitorCommand(settings, ctx, project, platform, fileArg);
    var test := TestCommand(fileArg);
    if !settings.noMonitor && RunError(oracle.monitorEnd).Some? then
      TestRun([monitor], Err(RunError(oracle.monitorEnd).value))
    else
      var started := (if settings.noMonitor then [] else [monitor]) + [test];
      if TestFails(oracle.testEnd) then TestRun(started, Err(RunError(oracle.testEnd).value))
      else TestRun(started, Ok(oracle.reported))
  }

  /**
   * What `snykTest` starts and returns: the monitor command first unless monitoring is off,
   * then the test command; a failed monitor step aborts the scan with its error; the test's
   * error is returned unless it is exit status 1, which yields the reported findings.
   */
  lemma SnykTestRun(path: string, project: string, platform: string, settings: ScanSettings,
                    ctx: ScanContext, oracle: ScanOracle)
    ensures var run := SnykTest(path, project, platform, settings, ctx, oracle);
      var fileArg := LockfileArg(ctx.cwd, path);
      && (settings.noMonitor ==> forall k :: 0 <= k < |run.commands| ==> run.commands[k] == TestCommand(fileArg))
      && (!settings.noMonitor ==> |run.commands| >= 1 && run.commands[0] == MonitorCommand(settings, ctx, project, platform, fileArg))
      && (run.outcome.Ok? ==> TestCommand(fileArg) in run.commands)
      && ((settings.noMonitor || oracle.monitorEnd == Exited(0)) ==>
            run.commands == (if settings.noMonitor then [] else [MonitorCommand(settings, ctx, project, platform, fileArg)])
                            + [TestCommand(fileArg)])
      && (!settings.noMonitor && oracle.monitorEnd != Exited(0) ==>
            run.outcome == Err(RunError(oracle.monitorEnd).value) && |run.commands| == 1)
      && ((settings.noMonitor || oracle.monitorEnd == Exited(0)) ==>
            (oracle.testEnd == Exited(0) || oracle.testEnd == Exited(1) ==> run.outcome == Ok(oracle.reported))
            && (!(oracle.testEnd == Exited(0) || oracle.testEnd == Exited(1)) ==>
                  run.outcome == Err(RunError(oracle.testEnd).value)))
  {
    TestFailsIff(oracle.testEnd);
  }

  /** `runSnyk`: the findings of one record's scan, or none when the scan fails. */
  function RunSnyk(po: ProcessOut, settings: ScanSettings, ctx: ScanContext, oracle: ScanOracle): seq<VulnReport>
  {
    var run := SnykTest(po.path, po.project, po.platform, settings, ctx, oracle);
    if run.outcome.Err? then [] else run.outcome.value
  }

  /**
   * A scan hands all reported findings to the aggregator when its monitor step (if any)
   * succeeds and the test exits with status 0 or 1, and hands over nothing otherwise.
   */
  lemma RunSnykFindings(po: ProcessOut, settings: ScanSettings, ctx: ScanContext, oracle: ScanOracle)
    ensures var tolerated := (settings.noMonitor || oracle.monitorEnd == Exited(0))
                             && (oracle.testEnd == Exited(0) || oracle.testEnd == Exited(1));
      RunSnyk(po, settings, ctx, oracle) == if tolerated then oracle.reported else []
  {
    SnykTestRun(po.path, po.project, po.platform, settings, ctx, oracle);
  }
}
