/** Finalizing a report against the goal forest: finalizeReportState of server/tools/report_finalize.go. */
module FinalizeTool {
  import opened Text
  import G = Goals
  import D = ReportDelivery

  /**
   * The checks in the code's order. A session without a goal manager has nothing to wait for. A finalize that succeeds
   * found every blocking root goal complete or rejected.
   */
  method FinalizeReportState(report: D.ReportState, goals: G.SubgoalManager?, title: string, author: string,
                             semanticsClear: bool)
    returns (ok: bool, blockers: seq<string>)
    requires goals != null ==> G.Settles(goals.goals)
    modifies report`title, report`author, report`needsFinalize
    ensures ok <==> && !D.DeliveryOf(old(report.Value())).FinalizedReport?
                    && (goals == null || G.BlockingRootsDone(goals.goals))
                    && D.Ready(old(report.Value())) && semanticsClear
    ensures report.Value()
         == if ok then old(report.Value()).(title := title, author := Trim(author), needsFinalize := false)
            else old(report.Value())
    ensures blockers != [] ==> !ok && goals != null && blockers == G.BranchLines(goals.goals, G.AllVisits(goals.goals))
  {
    blockers := [];
    if D.DeliveryOf(D.Report(report.blocks, report.charts, report.title, report.author, report.layout,
                             report.needsFinalize)).FinalizedReport? {
      return false, [];
    }
    var goalsDone := true;
    if goals != null { goalsDone, blockers := goals.CanFinalize(); }
    ok := report.FinalizeReport(goalsDone, semanticsClear, title, author);
  }
}
