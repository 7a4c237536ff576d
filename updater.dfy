/** `PackageUpdater` of the older dashboard: the pending-update count from `checkupdates`
    and the status shown for it. */
module Updater {
  import opened Env
  import opened Text
  import opened Collector

  /** The status dictionary `get_status` returns. */
  datatype UpdateStatus = UpdateStatus(status: string, color: Color, message: string)

  /** `get_update_count` given the outcome of running `checkupdates`: the number of output
      lines on exit status 0, 0 on any other status, -1 when the command is missing. No
      timeout is passed, and any other exception escapes. */
  function GetUpdateCount(run: ProcOutcome): (r: Outcome<int>)
    ensures r.Returned? ==> r.value >= -1
    ensures r == Returned(-1) <==> run.NotFound?
    ensures r.Raised? <==> run.TimedOut? || run.Failed?
    ensures run.Completed? && run.code == 0 ==> r == Returned(|SplitLines(run.stdout)|)
    ensures run.Completed? && run.code != 0 ==> r == Returned(0)
  {
    match run
    case Completed(code, stdout) => if code == 0 then Returned(|SplitLines(stdout)|) else Returned(0)
    case NotFound => Returned(-1)
    case _ => Raised
  }

  /** The status for a count: -1 is the missing tool, 0 is up to date, anything else is
      pending updates, yellow below 20 and red from 20 on. */
  function StatusOf(count: int): (s: UpdateStatus)
    ensures count == -1 <==> s.status == "Error"
    ensures count == 0 <==> s.status == "Up to date"
    ensures count == -1 ==> s == UpdateStatus("Error", Red, "checkupdates not found")
    ensures count == 0 ==> s == UpdateStatus("Up to date", Green, "System is fresh")
    ensures count != -1 && count != 0 ==>
      && s.status == "Updates Available"
      && (s.color == Yellow <==> count < 20)
      && (s.color == Red <==> count >= 20)
      && s.message == IntToString(count) + " packages pending"
  {
    if count == -1 then UpdateStatus("Error", Red, "checkupdates not found")
    else if count == 0 then UpdateStatus("Up to date", Green, "System is fresh")
    else UpdateStatus("Updates Available", if count < 20 then Yellow else Red, IntToString(count) + " packages pending")
  }

  /** `get_status`: the status of the current count; an exception from the count escapes. */
  function GetStatus(run: ProcOutcome): (r: Outcome<UpdateStatus>)
    ensures r.Raised? <==> GetUpdateCount(run).Raised?
    ensures r.Returned? ==> r.value == StatusOf(GetUpdateCount(run).value)
  {
    match GetUpdateCount(run)
    case Returned(count) => Returned(StatusOf(count))
    case Raised => Raised
  }

  /** The status says "Error" exactly when `checkupdates` is missing. */
  lemma ErrorOnlyWhenMissing(run: ProcOutcome)
    requires GetStatus(run).Returned?
    ensures GetStatus(run).value.status == "Error" <==> run.NotFound?
  {
  }

  /** With one package per output line, the message counts the packages listed. */
  lemma StatusOfPackageList(packages: seq<string>)
    requires forall i :: 0 <= i < |packages| ==> NoLineBreak(packages[i])
    requires packages != []
    ensures GetStatus(Completed(0, JoinLines(packages))) ==
      Returned(UpdateStatus("Updates Available", if |packages| < 20 then Yellow else Red,
                            IntToString(|packages|) + " packages pending"))
  {
    SplitJoinLines(packages);
  }
}
