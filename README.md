# security-mend-vanagon-action, modelled in Dafny

This project models the deterministic core of a GitHub action that scans the Ruby gem
dependencies of vanagon build targets. The repository's `main.go` is the monitor-and-test
variant built on snyk. `main_test.go` is a second `main` for a mend policy check.

For each target (a project and platform pair), the snyk action:

- writes a Gemfile (one `gem "<name>", <version>` line per dependency) under
  `gen_lockfile/<project>_<platform>` and runs `bundle lock` in that directory;
- collects one record per target and runs `snyk monitor` and `snyk test` against the
  record's lockfile;
- merges the findings of all targets, keeping one per package name and version;
- prints them as the `vulns` output of the step.

The model covers:

- the configuration read from the environment (both variants);
- branch sanitisation and skip-list parsing;
- the Gemfile text and output paths;
- the record each build sends back, and the collection of those records in arrival order;
- the snyk command lines and how a process's end decides a scan's outcome;
- the merge of findings;
- the output string and exit status;
- the mend variant's pass/fail fold.

Processes, the file system and the environment are parameters: an outcome for each
process, a map for the environment, a directory name for the working directory. Goroutine
scheduling is a parameter too: a delivery order that names each sender exactly once.

Go behaviour is written out where it matters:

- `strings.Split`, `strings.Join`, `strings.TrimSpace` and `strings.TrimSuffix`;
- `strconv.Itoa`, used in the text of `exit status N`;
- the lexical rules of `filepath.Clean` and `filepath.Join` on Unix;
- the error texts of `exec.Cmd.Run`.

Strings are sequences of bytes. Each `char` stands for one byte of the Go string. The branch
regex `[^a-zA-Z0-9-]+` is byte-exact on UTF-8 input, because every byte of a multi-byte
character is outside the allowed set.

Where the code does something other than its comments or a reader would expect, the model
follows the code:

- A target whose build fails is still scanned. Its zero record (`processOut{}`) is
  collected and scanned like any other, against the working directory's own
  `Gemfile.lock` (`Snyk.ZeroRecordLockfile`).
- `snyk test` ending with exit status 2 fails the scan. The comment beside the check
  says "anything but status 1 or 2", but the code compares the error text with
  `"exit status 1"` only (`Snyk.TestFailsIff`, `Snyk.ExitStatusTwoFails`).
- With findings, the comment says the action exits with status 1, but the code exits with
  status 0 in both branches (`Report.SetOutput`).
- The output string joins the first two findings' displays with no comma
  (`[a, b, c]` prints `ab,c`). A single finding loses one trailing comma of its own.
  This is modelled as written (`Report.OutStringFusesFirstTwo`, `Report.ThreeFindingsExample`).

`main_test.go` has its own copies of `vulnExists`, the branch and skip-list code and
`buildGemFile`. The same members model them, because the text is the same. Its
`processProjPlat` (main_test.go:160-190) is `Manifest.ProcessProjPlat` without the unused
`org` parameter.

## Model

| member | source | states |
|---|---|---|
| Strings.Split | main.go:48 | a split always yields at least one piece |
| Strings.SplitCount | main.go:48 | splitting on a byte yields one more piece than the string has separators |
| Strings.SplitPiecesHaveNoSeparator | main.go:48 | no piece of a split contains the separator |
| Strings.JoinSplit | main.go:48 | joining the pieces of a split with the same separator gives the original string |
| Strings.SplitJoin | main.go:48 | splitting a join of separator-free pieces gives the pieces back (the inverse direction) |
| Strings.TrimSpace | main.go:50 | the result is a contiguous slice of the input, with only white space cut at either end and none left at either end |
| Strings.TrimSpaceIdempotent | main.go:50 | trimming twice is trimming once |
| Strings.TrimSuffix | main.go:357 | with the suffix present, result + suffix is the input; otherwise the input is unchanged |
| Strings.Decimal | main.go:240 | `strconv.Itoa` of a natural number: at least one digit, all decimal digits, two or more exactly from 10 |
| Strings.DecimalRoundTrip | main.go:240 | reading the digits of `Decimal(n)` back gives `n` |
| Paths.Clean | main.go:121 | `filepath.Clean` never returns the empty string |
| Paths.Join2 | main.go:121 | `filepath.Join` of two elements is empty exactly when both elements are |
| Paths.CleanKeepsPlainPath | main.go:121 | a relative path whose elements are all plain names is already clean |
| Paths.Join2Plain | main.go:121 | joining a plain directory and a plain name puts exactly one slash between them |
| Paths.Join2EmptyDirectory | main.go:207 | joining a plain name onto the empty path gives the name itself |
| Paths.Join2PlainUnder | main.go:207 | joining a plain name onto a plain two-level directory adds one slash and the name |
| Config.StripDisallowed | main.go:77-81 | the regex deletion never lengthens the branch and leaves only bytes of `[A-Za-z0-9-]`; with `Config.StripDisallowedAppend`, `Config.StripDisallowedKeepsAllowed` and `Config.StripDisallowedDropsDisallowed` the result is fixed byte by byte: allowed bytes kept in order, every other byte deleted |
| Config.StripDisallowedDropsDisallowed | main.go:77-81 | a run of bytes outside `[A-Za-z0-9-]` is replaced by nothing, not by some allowed byte |
| Config.StripDisallowedAppend | main.go:77-81 | deleting disallowed bytes distributes over concatenation |
| Config.StripDisallowedKeepsAllowed | main.go:77-81 | a string of allowed bytes is left unchanged |
| Config.SanitizeBranch | main.go:72-83 | the branch kept is at most 10 bytes long and holds only `[A-Za-z0-9-]`; an empty branch stays empty |
| Config.SanitizeBranchTruncatesFirst | main.go:74-81 | whatever follows the first ten bytes has no effect: truncation comes before stripping |
| Config.SanitizeBranchIdempotent | main.go:72-83 | sanitising a sanitised branch changes nothing |
| Config.SanitizeBranchDropsSeparator | main.go:72-83 | two allowed words around a `/` that fill the first ten bytes are kept and joined, the `/` and everything after the tenth byte dropped (`feature/ABC!! very-long-name` becomes `featureAB`) |
| Config.ParseSkipList | main.go:46-55 | "" gives no entries; otherwise one entry per comma-separated piece, in order, each the trimmed piece; empty pieces are kept; no entry holds a comma |
| Config.SkipListEntriesTrimmed | main.go:49-51 | no entry starts or ends with white space |
| Config.SkipListRoundTrip | main.go:46-55 | for a value without white space, joining the entries with commas gives the value back |
| Config.GetSnykEnvVar | main.go:23-86 | token, org and workspace are required in that order, each with its own error; success exactly when all three are set; every field is the variable read, the parsed skip list, the flag or the sanitised branch |
| Config.GetRequiredVar | main_test.go:20-26 | the value when set, otherwise the fatal error with the given message |
| Config.GetOptionalEnvVar | main_test.go:28-34 | the stored value is the variable's value when non-empty, else the default |
| Config.GetMendEnvVar | main_test.go:36-95 | five required settings and the workspace checked in order, each missing one giving its own error; success exactly when all six are set; fields as read, parsed or sanitised |
| Aggregate.VulnExists | main.go:88-95 | true exactly when some finding in the list has the same package name and version; other fields are ignored |
| Aggregate.VulnExistsIsKeyMembership | main.go:88-95 | the search is membership of the key in the list's key set |
| Aggregate.FirstOccurrences | main.go:342-349 | reference definition of the merge: its keys are the input's keys minus those already seen, it has no duplicate keys, and it invents no finding |
| Aggregate.MergeInto | main.go:344-348 | the inner loop over one result, appending each finding `vulnExists` does not find; `Aggregate.MergeIntoIsFirstOccurrences` states that it keeps the old list and adds the first finding of each new key |
| Aggregate.MergeIntoIsFirstOccurrences | main.go:344-348 | the loop as written keeps what it had and appends the first finding of each new key |
| Aggregate.FirstSeenWins | main.go:344-348 | every finding kept is the first finding of its key in the input |
| Aggregate.FirstOccurrencesInOrder | main.go:344-348 | the findings kept are in the order in which their keys first appear |
| Aggregate.FirstOccurrencesOfDistinct | main.go:344-348 | a list without duplicate keys passes through unchanged |
| Aggregate.Merge | main.go:342-349 | the nested loops compute the reference merge of the results in arrival order: no duplicate keys, and exactly the keys of all findings |
| Aggregate.KeysOfFlatten | main.go:342-349 | the keys of all findings are the keys of the individual results |
| Aggregate.InFlatten | main.go:342-349 | a finding is among all findings exactly when some result holds it |
| Aggregate.MergedKeysOrderIndependent | main.go:342-349 | results that arrive in any rearrangement merge to the same key set |
| Aggregate.MergeIdempotent | main.go:342-349 | merging a merged list again changes nothing |
| Aggregate.MergeScenario | main.go:342-349 | two targets sharing `foo` 1.0 and each adding a distinct finding merge to three findings, with the shared one kept once |
| Aggregate.RetainedInstanceDependsOnOrder | main.go:344-348 | which finding of a shared key is kept is the one that arrives first |
| Arrival.Select | main.go:324-327 | the k-th message received is the message of the k-th sender in the delivery order |
| Arrival.ArrivalOrderBounded | main.go:324-327 | a delivery order has one slot per sender and names only senders |
| Arrival.ArrivalOrderCovers | main.go:324-327 | every sender is delivered |
| Arrival.SelectPermuted | main.go:324-327 | two delivery orders that are rearrangements of each other receive the same messages |
| Arrival.ArrivalPreservesMessages | main.go:324-327 | whatever the delivery order, the multiset of messages received is the multiset sent |
| Arrival.Receive | main.go:323-327 | the receive loop appends the messages in delivery order and ends with exactly the messages sent |
| Gemfile.Declaration | main.go:110 | the `gem "<name>", <version>` line of one gem, without its line break; `Gemfile.DeclarationHasNoLineBreak` states that it holds no line break when the name and version hold none, so that each gem is one line of the Gemfile (`Gemfile.LinesUnderHeader`) |
| Gemfile.GemfileText | main.go:108-111 | the header line and one line per gem; `Gemfile.GemfileLines` states its line structure and `Gemfile.RenderGemfile` that the `+=` loop builds it |
| Gemfile.Declarations | main.go:109-111 | one declaration per gem, in input order |
| Gemfile.RenderGemfile | main.go:108-111 | the `+=` loop yields the header line and then one declaration line per gem; no gems gives the header alone |
| Gemfile.DeclarationLinesJoin | main.go:109-111 | the appended lines are the declarations joined by line breaks, with a final line break |
| Gemfile.HeaderHasNoLineBreak | main.go:108 | the header is a single line |
| Gemfile.GemfileLines | main.go:108-111 | read back line by line, the Gemfile is the header, one declaration per gem in order, then nothing, when no name or version holds a line break |
| Gemfile.LinesUnderHeader | main.go:108-111 | the same line structure under any single-line header |
| Gemfile.EmptyGemfileIsHeader | main.go:108-111 | a target without gems gets a Gemfile holding only the header line |
| Gemfile.OutputFolder | main.go:120 | the `<project>_<platform>` folder name; `Gemfile.OutputPathPlain` states the path it gives under `gen_lockfile` and `Gemfile.UnderscoreSplit` that project and platform can be read back from it when the project has no `_` |
| Gemfile.OutputPath | main.go:120-121 | `filepath.Join(LOCKFILE_DIR, "<project>_<platform>")`; `Gemfile.OutputPathPlain` states the path it gives and `Gemfile.OutputPathInjective` that distinct targets get distinct paths |
| Gemfile.OutputPathPlain | main.go:120-121 | with slash-free names the output directory is `gen_lockfile/<project>_<platform>` |
| Gemfile.OutputPathInjective | main.go:120-121 | slash-free targets whose project names have no `_` get distinct output directories |
| Gemfile.UnderscoreSplit | main.go:120 | `a_b` splits back into `a` and `b` at its first underscore when `a` has none |
| Manifest.Record | main.go:159-189 | the record sent for one target; `Manifest.ProcessProjPlat` states its fields and `Manifest.ZeroRecordIffBuildFailed` that it is the zero record exactly when the build failed |
| Manifest.Records | main.go:159-189 | one record per target, in target order, each the record its build yields |
| Manifest.ProcessProjPlat | main.go:159-189 | the Gemfile is built with or without gems; on success the record names the target, its output directory and whether it has gems; on failure it is the zero record |
| Manifest.ZeroRecordIffBuildFailed | main.go:159-189 | a record is the zero record exactly when the build failed |
| Manifest.EveryRecordCollected | main.go:323-327 | each target's record, the zero record of a failed build included, is among those collected |
| Mend.CollectStatuses | main_test.go:241-256 | `hasFailures` holds exactly when some status reports a failure, whatever the arrival order; the exit status is 1 then and 0 otherwise |
| Snyk.TargetReference | main.go:217-222 | the `--target-reference` argument; `Snyk.TargetReferenceSeparatesProjects` and `Snyk.TargetReferenceReadBack` state what can be read back from it |
| Snyk.TargetReferenceSeparatesProjects | main.go:217-222 | for a fixed branch, distinct projects get distinct target references |
| Snyk.TargetReferenceReadBack | main.go:217-222 | with non-empty branches free of `_`, branch and project are both recoverable from the reference |
| Snyk.SanitizedReferenceReadBack | main.go:217-222 | the same for sanitised non-empty branches, which never hold `_` |
| Snyk.RunError | main.go:237 | `Run` reports no error exactly when the process exited with status 0 |
| Snyk.TestFails | main.go:238-243 | the verdict on `snyk test`'s error: it fails the scan unless the error text is exactly `exit status 1`; `Snyk.TestFailsIff` states that this holds exactly when the test neither exits with 0 nor with 1 |
| Snyk.TestFailsIff | main.go:237-244 | a `snyk test` run fails the scan unless it exited with status 0 or 1: other statuses, signals and start failures all fail it |
| Snyk.ExitStatusTwoFails | main.go:239-240 | exit status 2 fails the scan |
| Snyk.ZeroRecordLockfile | main.go:207-209 | the zero record is scanned with `--file=<cwd>/Gemfile.lock` |
| Snyk.LockfileArg | main.go:207-209 | the `--file=<cwd>/<path>/Gemfile.lock` argument; `Snyk.ZeroRecordLockfile` and `Snyk.LockfileInOutputDir` state the file it names for a zero and a built record |
| Snyk.MonitorCommand | main.go:210-226 | the `snyk monitor` command line; `Snyk.SnykTestRun` states when it is started, and first |
| Snyk.TestCommand | main.go:227-232 | the `snyk test` command line; `Snyk.SnykTestRun` states that it is started whenever the monitor step succeeds or is skipped |
| Snyk.LockfileInOutputDir | main.go:207-209 | a successful record is scanned with `--file=<cwd>/gen_lockfile/<project>_<platform>/Gemfile.lock` |
| Snyk.SnykTest | main.go:206-258 | one target's scan, with the processes ending as given; `Snyk.SnykTestRun` states the commands it starts and what it returns |
| Snyk.SnykTestRun | main.go:206-258 | `snyk monitor` runs first unless monitoring is off, and its failure aborts the scan with its error; otherwise `snyk test` runs, and exit status 0 or 1 yields the reported findings while any other end yields its error text |
| Snyk.RunSnyk | main.go:191-204 | the findings one scan hands over; `Snyk.RunSnykFindings` states them for every way the two processes can end |
| Snyk.RunSnykFindings | main.go:191-204 | a scan hands over every reported finding when its monitor step, if any, succeeds and the test exits with 0 or 1, and nothing otherwise |
| Pipeline.FoundAsTargets | main.go:342-349 | merging any rearrangement of the targets' findings keeps exactly their keys and invents no finding |
| Report.OutString | main.go:351-357 | `outString` after the loop and the trim; `Report.OutStringFusesFirstTwo`, `Report.OutStringSingle` and `Report.OutStringReadBack` state what it holds |
| Report.OutputLine | main.go:350-362 | the text printed for the merged findings; `Report.SetOutput` states that the code prints it and `Report.ThreeFindingsExample` shows one instance |
| Report.Displays | main.go:353-356 | one display per finding, in order |
| Report.SetOutput | main.go:351-363 | the `+=` loop and trim produce the printed line; no findings print `::set-output name=vulns:: `; the exit status is 0 either way |
| Report.CommaTerminatedIsJoin | main.go:354-356 | the loop's appended text is the displays joined by commas plus one comma |
| Report.TrimOneComma | main.go:357 | trimming the comma a string ends with gives the string before it |
| Report.OutStringFusesFirstTwo | main.go:353-357 | two or more findings print as the first display followed directly by the rest joined with commas |
| Report.OutStringSingle | main.go:353-357 | a single finding prints as its display with one trailing comma trimmed |
| Report.OutStringReadBack | main.go:353-357 | split on commas, the output gives one entry fewer than there are findings, the first two fused |
| Report.ThreeFindingsExample | main.go:353-358 | findings displayed as a, b, c print `ab,c` |
| Gemfile.BuildGemFile | main.go:106-157 | the steps run in order until the first failure; the Gemfile is written exactly when the failing step comes after the write; the result is the output directory, or the failing step |
| Manifest.BuildStage | main.go:315-327 | one record is collected per target in arrival order; the multiset of records is that of the targets' records; built targets have their Gemfile written |
| Pipeline.ScanStage | main.go:334-341 | one scan per collected record, the zero records included; the scans started are, as a multiset, those of the targets |
| Pipeline.ScannedAsTargets | main.go:334-341 | the findings sent by the dispatched scans are the targets' findings in record arrival order, and so, as a multiset, exactly the targets' findings |
| Pipeline.SnykMain | main.go:289-364 | missing configuration and a failed `snyk auth` are fatal with their messages; otherwise every record is scanned, the merged findings have no duplicate keys and exactly the keys of all targets' findings, whichever order either channel delivers in; the printed line is the report of the merged findings and the exit status is 0 |

## Left out

- Reading and setting the environment (`os.Getenv`, `os.Setenv`, `setDebugEnvVars` at main.go:261-287, the `LOCAL_RUN` switch): the environment is a map given to the model.
- `authSnyk` and the `snyk`, `bundle` processes: each process's end is an input (`Snyk.ProcessEnd`, `Gemfile.BuildStep`); what they do is not modelled.
- `getProjPlats` and `runVanagonDeps`: not part of this model; their result is the list of targets given to `Pipeline.SnykMain`.
- `MkdirAll`, `WriteFile`, `Getwd` and `Chdir` in `buildGemFile`: their effects are reduced to which step fails first and the file written. The deferred `Chdir` back and `os.Chdir(conf.GithubWorkspace)` are not modelled; the scans' working directory is an input.
- Goroutines, the `results`/`sresults` channels, the `sem` counting semaphore and `DIR_MUTEX`: only the delivery order is modelled. The lock taken at main.go:333 (main_test.go:232) is never released. No `buildGemFile` runs after it, so it changes nothing the model observes.
- Parsing the JSON that `snyk test` prints (gjson, `NewVulnReport`, `VulnReport.String`): the findings and their display strings are inputs.
- `runMend` (main_test.go:192-195) neither sends a status nor reads from `sem`. So the policy-check `main` blocks at `sem <- 1` (main_test.go:235) once there are more than `MAX_V_DEPS` = 20 records (main_test.go:18), and otherwise at its first receive on `sresults` (main_test.go:243) when there is at least one record. `Mend.CollectStatuses` models the fold over the statuses a working `runMend` would send.
- `os.Exit`, `fmt.Printf` and logging: the model returns the exit status and the printed text. It does not model what is emitted.
- Strings.TrimSpace: trims ASCII white space only; Go also trims Unicode spaces such as U+0085 and U+00A0.
- Snyk.RunError: the text after `signal: ` and the start-failure reasons are inputs, not the exact texts Go's runtime produces.
- Config.GetRequiredVar, Config.GetMendEnvVar: in the policy-check variant a missing required setting ends the process inside `getRequiredVar` with `log.Fatal` (main_test.go:20-26), while a missing workspace is returned and printed by `main` after "couldn't setup the env vars" (main_test.go:49-51, 198-200); the model returns all six cases alike as an error with the same message, and does not tell where the process ends.
- Pipeline.SnykMain: the `SETUP_FAILED` message is stated as a prefix of the fatal message, not with the exact error appended.
- The `org` parameter of `processProjPlat` (main.go:159) is unused by the code and absent from the model.
