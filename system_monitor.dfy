/** `SystemMonitor`, the older three-panel dashboard: disk and memory status with fixed
    colour thresholds, and the package status. */
module SystemMonitor {
  import opened Env
  import opened Text
  import opened Collector
  import opened Config
  import Disk
  import Memory
  import Updater

  /** The status dictionary the getters return (its "label" key is `caption` here). */
  datatype Status = Status(caption: string, value: Value, color: Color)

  /** A titled panel of the dashboard and what it shows, in the given colour. */
  datatype StatusPanel = StatusPanel(title: string, color: Color, content: Value)

  /** `get_disk_usage` given the outcome of `df -h /` (`check=True`: a non-zero exit raises).
      Every exception gives "Error" in red. */
  function GetDiskUsage(df: ProcOutcome): (s: Status)
    ensures s.caption == "Disk"
    ensures s == Status("Disk", Plain("Error"), Red) <==>
      !df.Completed? || df.code != 0 || Disk.DfFields(df.stdout).None?
    ensures df.Completed? && df.code == 0 && Disk.DfFields(df.stdout).Some? ==>
      var pct := Disk.DfFields(df.stdout).value.0;
      s.value == Plain(IntToString(pct) + "%") && s.color == Grade(pct as real, 80, 95)
  {
    if df.Completed? && df.code == 0 && Disk.DfFields(df.stdout).Some? then
      var pct := Disk.DfFields(df.stdout).value.0;
      var text := IntToString(pct) + "%";
      assert text[|text| - 1] != "Error"[4];
      Status("Disk", Plain(text), Grade(pct as real, 80, 95))
    else Status("Disk", Plain("Error"), Red)
  }

  /** `get_memory_usage` given the outcome of `free -m` (no `check`: the output is parsed
      whatever the exit status). A missing tool, a malformed line or a zero total gives
      "Error" in red. */
  function GetMemoryUsage(free: ProcOutcome): (s: Status)
    ensures s.caption == "Memory"
    ensures s == Status("Memory", Plain("Error"), Red) <==>
      !free.Completed? || Memory.FreeFields(free.stdout).None? || Memory.FreeFields(free.stdout).value.0 == 0
    ensures free.Completed? && Memory.FreeFields(free.stdout).Some? && Memory.FreeFields(free.stdout).value.0 != 0 ==>
      var (total, available) := Memory.FreeFields(free.stdout).value;
      var pct := Memory.UsedPercent(total, available);
      s.value == Number(pct, Fixed(1), "%") && s.color == Grade(pct, 70, 90)
  {
    if free.Completed? && Memory.FreeFields(free.stdout).Some? && Memory.FreeFields(free.stdout).value.0 != 0 then
      var (total, available) := Memory.FreeFields(free.stdout).value;
      var pct := Memory.UsedPercent(total, available);
      Status("Memory", Number(pct, Fixed(1), "%"), Grade(pct, 70, 90))
    else Status("Memory", Plain("Error"), Red)
  }

  /** `generate_dashboard`: the Disk, Memory and Updates panels, in that order. An exception
      from the package status escapes. */
  function GenerateDashboard(df: ProcOutcome, free: ProcOutcome, checkupdates: ProcOutcome): (r: Outcome<seq<StatusPanel>>)
    ensures r.Raised? <==> Updater.GetStatus(checkupdates).Raised?
    ensures r.Returned? ==>
      var disk := GetDiskUsage(df);
      var mem := GetMemoryUsage(free);
      var updates := Updater.GetStatus(checkupdates).value;
      r.value == [StatusPanel("Disk", disk.color, disk.value),
                  StatusPanel("Memory", mem.color, mem.value),
                  StatusPanel("Updates", updates.color, Plain(updates.message))]
  {
    var disk := GetDiskUsage(df);
    var mem := GetMemoryUsage(free);
    match Updater.GetStatus(checkupdates)
    case Raised => Raised
    case Returned(updates) =>
      Returned([StatusPanel("Disk", disk.color, disk.value),
                StatusPanel("Memory", mem.color, mem.value),
                StatusPanel("Updates", updates.color, Plain(updates.message))])
  }

  /** On output shaped like `df`'s, the disk status shows the row's percentage. */
  lemma DiskUsageOfDfOutput(lines: seq<string>, row: seq<string>, pct: int)
    requires forall i :: 0 <= i < |lines| ==> NoLineBreak(lines[i])
    requires |lines| >= 2 && lines[1] == JoinWords(row)
    requires Disk.IsDfRow(row, pct)
    ensures GetDiskUsage(Completed(0, JoinLines(lines))) ==
      Status("Disk", Plain(IntToString(pct) + "%"), Grade(pct as real, 80, 95))
  {
    LineWordsOfTable(lines, 1, row);
    Disk.DfFieldsOfRow(JoinLines(lines), row, pct);
  }

  /** The fixed 80/95 disk colours are the disk collector's colours under the default
      configuration, and both read the same column. */
  lemma DiskAgreesWithCollector(df: ProcOutcome)
    requires df.Completed? && df.code == 0 && Disk.DfFields(df.stdout).Some?
    ensures GetDiskUsage(df).color == Disk.Collect(df, DefaultConfig()).color
    ensures Disk.Collect(df, DefaultConfig()).percentage == Some(Disk.DfFields(df.stdout).value.0 as real)
  {
  }

  /** The fixed 70/90 memory colours are the memory collector's colours under the default
      configuration whenever both parse the output. */
  lemma MemoryAgreesWithCollector(free: ProcOutcome)
    requires free.Completed? && free.code == 0
    requires Memory.FreeFields(free.stdout).Some? && Memory.FreeFields(free.stdout).value.0 != 0
    ensures GetMemoryUsage(free).color == Memory.Collect(free, DefaultConfig()).color
  {
  }

  /** Unlike the memory collector, the older getter ignores the exit status of `free`. */
  lemma MemoryIgnoresExitStatus(code: int, stdout: string)
    ensures GetMemoryUsage(Completed(code, stdout)) == GetMemoryUsage(Completed(0, stdout))
  {
  }
}
