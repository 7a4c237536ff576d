/** `UpdatesCollector`: the number of pending package updates, one per line printed by
    `checkupdates`. */
module Updates {
  import opened Env
  import opened Text
  import opened Collector
  import opened Config

  /** The count: the number of output lines on exit status 0, otherwise 0 (`checkupdates`
      exits non-zero when there is nothing to update). `None`: running the command raised. */
  function PendingCount(run: ProcOutcome): (r: Option<nat>)
    ensures r.Some? <==> run.Completed?
    ensures run.Completed? && run.code != 0 ==> r == Some(0)
  {
    match run
    case Completed(code, stdout) => Some(if code == 0 then |SplitLines(stdout)| else 0)
    case _ => None
  }

  /** `UpdatesCollector.collect` given the outcome of running `checkupdates` (with a timeout,
      whose expiry raises like the command not being found). */
  function Collect(run: ProcOutcome, config: MonitorConfig): (r: MetricResult)
    ensures r.caption == Label(Updates) && r.icon == Icon(Updates)
    ensures r.percentage == None && r.unit == ""
    ensures r == ErrorSample(Updates) <==> !run.Completed?
    ensures PendingCount(run) == Some(0) ==> r.value == Plain("Up to date") && r.color == Green
    ensures PendingCount(run).Some? && PendingCount(run).value > 0 ==>
      var n := PendingCount(run).value;
      && r.value == Plain(IntToString(n) + " pending")
      && r.color == Grade(n as real, config.updates.warn, config.updates.crit)
  {
    match PendingCount(run)
    case None => ErrorSample(Updates)
    case Some(n) =>
      if n == 0 then Sample(Label(Updates), Plain("Up to date"), Icon(Updates), Green)
      else
        var text := IntToString(n) + " pending";
        assert |text| > |"Error"|;
        Sample(Label(Updates), Plain(text), Icon(Updates), Grade(n as real, config.updates.warn, config.updates.crit))
  }

  /** One package per line: the count is the number of packages listed. */
  lemma PendingCountOfList(packages: seq<string>)
    requires forall i :: 0 <= i < |packages| ==> NoLineBreak(packages[i])
    ensures PendingCount(Completed(0, JoinLines(packages))) == Some(|packages|)
  {
    SplitJoinLines(packages);
  }

  /** `UpdatesCollector.available`: the command could be run, whatever its exit status.
      `FileNotFoundError` and `TimeoutExpired` give `False`; any other exception escapes. */
  function Available(run: ProcOutcome): (r: Outcome<bool>)
    ensures r == Returned(true) <==> run.Completed?
    ensures r == Returned(false) <==> run.NotFound? || run.TimedOut?
    ensures r.Raised? <==> run.Failed?
  {
    match run
    case Completed(_, _) => Returned(true)
    case Failed => Raised
    case _ => Returned(false)
  }
}
