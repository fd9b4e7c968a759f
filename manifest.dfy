/**
 * The manifest stage: one goroutine per vanagon target builds that target's Gemfile and
 * sends back a record of where it went; the main goroutine collects one record per target.
 */
module Manifest {
  import opened Wrappers
  import opened Arrival
  import opened Gemfile

  /** What vanagon reported for one target: its project, its platform and its gems. */
  datatype DepsOut = DepsOut(project: string, platform: string, gems: seq<Gem>)

  /** The record sent back for one target. */
  datatype ProcessOut = ProcessOut(hasGems: bool, project: string, platform: string, path: string)

  /** `processOut{}`, the zero value sent when the build fails. */
  const ZERO_RECORD: ProcessOut := ProcessOut(false, "", "", "")

  /** The record `processProjPlat` sends for `deps` when the build fails at `failure` (None: it succeeds). */
  function Record(deps: DepsOut, failure: Option<BuildStep>): ProcessOut
  {
    if failure.Some? then ZERO_RECORD
    else ProcessOut(|deps.gems| > 0, deps.project, deps.platform, OutputPath(deps.project, deps.platform))
  }

  /** The records of all targets, in target order. */
  function Records(vDeps: seq<DepsOut>, failures: seq<Option<BuildStep>>): (r: seq<ProcessOut>)
    requires |failures| == |vDeps|
    ensures |r| == |vDeps| && forall i :: 0 <= i < |vDeps| ==> r[i] == Record(vDeps[i], failures[i])
  {
    if vDeps == [] then [] else [Record(vDeps[0], failures[0])] + Records(vDeps[1..], failures[1..])
  }

  /**
   * `processProjPlat(deps, org, results)`: build the Gemfile whether or not there are gems,
   * and shape the record from the outcome. `failure` is the first build step that fails.
   */
  method ProcessProjPlat(deps: DepsOut, failure: Option<BuildStep>) returns (written: Option<FileWrite>, po: ProcessOut)
    ensures po == Record(deps, failure)
    ensures failure.None? ==>
      (po.hasGems == (|deps.gems| > 0) && po.project == deps.project
       && po.platform == deps.platform && po.path == OutputPath(deps.project, deps.platform))
    ensures failure.Some? ==> po == ZERO_RECORD
    ensures failure.None? ==> written.Some? && written.value.content == GemfileText(deps.gems)
  {
    var r;
    if |deps.gems| > 0 {
      written, r := BuildGemFile(deps.project, deps.platform, deps.gems, failure);
      if r.Err? {
        po := ZERO_RECORD;
        return;
      }
      po := ProcessOut(true, deps.project, deps.platform, r.value);
    } else {
      // no gems: a Gemfile holding the header alone is built all the same
      written, r := BuildGemFile(deps.project, deps.platform, deps.gems, failure);
      if r.Err? {
        po := ZERO_RECORD;
        return;
      }
      po := ProcessOut(false, deps.project, deps.platform, r.value);
    }
  }

  /** A record is the zero record exactly when its target's build failed. */
  lemma ZeroRecordIffBuildFailed(deps: DepsOut, failure: Option<BuildStep>)
    ensures Record(deps, failure) == ZERO_RECORD <==> failure.Some?
  {
    if failure.None? {
      assert Record(deps, failure).path != "";
    }
  }

  /**
   * The manifest stage of `main`: start one sender per target, then receive `len(vDeps)`
   * records in the order `arrival` delivers them. Failed builds are not dropped: their
   * zero records are collected like any other.
   */
  method BuildStage(vDeps: seq<DepsOut>, failures: seq<Option<BuildStep>>, arrival: seq<nat>)
    returns (gemfiles: seq<Option<FileWrite>>, p: seq<ProcessOut>)
    requires |failures| == |vDeps|
    requires IsArrivalOrder(arrival, |vDeps|)
    ensures InRange(arrival, |vDeps|)
    ensures |p| == |vDeps| && p == Select(Records(vDeps, failures), arrival)
    ensures multiset(p) == multiset(Records(vDeps, failures))
    ensures |gemfiles| == |vDeps|
    ensures forall i :: 0 <= i < |vDeps| && failures[i].None? ==>
      (gemfiles[i].Some? && gemfiles[i].value.content == GemfileText(vDeps[i].gems))
  {
    var sent: seq<ProcessOut> := [];
    gemfiles := [];
    for i := 0 to |vDeps|
      invariant |sent| == i && |gemfiles| == i
      invariant forall j :: 0 <= j < i ==> sent[j] == Record(vDeps[j], failures[j])
      invariant forall j :: 0 <= j < i && failures[j].None? ==>
        (gemfiles[j].Some? && gemfiles[j].value.content == GemfileText(vDeps[j].gems))
    {
      var written, po := ProcessProjPlat(vDeps[i], failures[i]);
      sent := sent + [po];
      gemfiles := gemfiles + [written];
    }
    assert sent == Records(vDeps, failures);
    ArrivalOrderBounded(arrival, |vDeps|);
    p := Receive(sent, arrival);
  }

  /** Every target's record is collected, whatever the arrival order. */
  lemma EveryRecordCollected(vDeps: seq<DepsOut>, failures: seq<Option<BuildStep>>, arrival: seq<nat>, i: nat)
    requires |failures| == |vDeps| && IsArrivalOrder(arrival, |vDeps|) && i < |vDeps|
    ensures InRange(arrival, |vDeps|)
    ensures Record(vDeps[i], failures[i]) in Select(Records(vDeps, failures), arrival)
  {
    ArrivalPreservesMessages(Records(vDeps, failures), arrival);
    assert Records(vDeps, failures)[i] in multiset(Records(vDeps, failures));
  }
}
