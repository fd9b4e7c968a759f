/**
 * The policy-check variant's last stage (main_test.go): fold the pass/fail statuses of the
 * per-target runs into one flag and choose the exit status from it.
 */
module Mend {
  import opened Arrival

  /** What one policy-check run reports for its target. */
  datatype RunStatus = RunStatus(project: string, platform: string, failure: bool)

  /**
   * Receive one status per target in the order `order` delivers them, setting
   * `hasFailures` as soon as one reports a failure; exit 1 when any did, else 0.
   */
  method CollectStatuses(sent: seq<RunStatus>, order: seq<nat>) returns (hasFailures: bool, exitCode: int)
    requires IsArrivalOrder(order, |sent|)
    ensures hasFailures <==> exists i :: 0 <= i < |sent| && sent[i].failure
    ensures exitCode == (if hasFailures then 1 else 0)
  {
    ArrivalOrderBounded(order, |sent|);
    hasFailures := false;
    for k := 0 to |order|
      invariant hasFailures <==> exists j :: 0 <= j < k && sent[order[j]].failure
    {
      var result := sent[order[k]];
      if result.failure {
        hasFailures := true;
      }
    }
    if i :| 0 <= i < |sent| && sent[i].failure {
      ArrivalOrderCovers(order, |sent|, i);
    }
    exitCode := if hasFailures then 1 else 0;
  }
}
