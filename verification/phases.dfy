/** Phases of tasks and jobs, and the phase a task gets from its jobs. */
module Phases {
  datatype Phase = Unset | Pending | Running | Succeeded | Failed

  /** The phase one job reported; jobs are told apart by their position in the rule list. */
  datatype JobPhase = JobPhase(job: nat, phase: Phase)

  function GetStatus(jobs: seq<JobPhase>): (phase: Phase)
    ensures phase == Succeeded <==> jobs != [] && forall j :: j in jobs ==> j.phase != Failed
    ensures phase == Succeeded || phase == Failed
  {
    if jobs == [] then Failed
    else if exists i :: 0 <= i < |jobs| && jobs[i].phase == Failed then Failed
    else Succeeded
  }
}
