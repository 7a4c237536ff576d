/** `DiskCollector`: usage of the root filesystem from the second line of `df -h /`. */
module Disk {
  import opened Env
  import opened Text
  import opened Collector
  import opened Config

  /** The use percentage (column 4 with every `%` removed, as an integer) and the used and
      size columns (2 and 1), copied as text. `None` stands for the `IndexError` or
      `ValueError` the parse raises. */
  function DfFields(stdout: string): (r: Option<(int, string, string)>)
    ensures r.Some? ==> LineWords(stdout, 1).Some? && |LineWords(stdout, 1).value| >= 5
    ensures r.Some? ==>
      var parts := LineWords(stdout, 1).value;
      ParseInt(RemoveAll(parts[4], '%')) == Some(r.value.0) && r.value.1 == parts[2] && r.value.2 == parts[1]
  {
    var parts := LineWords(stdout, 1);
    if parts.None? || |parts.value| < 5 then None
    else
      var pct := ParseInt(RemoveAll(parts.value[4], '%'));
      if pct.None? then None else Some((pct.value, parts.value[2], parts.value[1]))
  }

  /** The sample built from the parsed columns. */
  function FromFields(fields: Option<(int, string, string)>, config: MonitorConfig): (r: MetricResult)
    ensures r.caption == Label(Disk) && r.icon == Icon(Disk)
    ensures r == ErrorSample(Disk) <==> fields.None?
    ensures fields.Some? ==>
      var (pct, used, total) := fields.value;
      && r.value == Plain(used + " / " + total)
      && r.color == Grade(pct as real, config.disk.warn, config.disk.crit)
      && r.percentage == Some(pct as real)
      && r.unit == "%"
  {
    if fields.None? then ErrorSample(Disk)
    else
      var (pct, used, total) := fields.value;
      MetricResult(Label(Disk), Plain(used + " / " + total), Icon(Disk),
        Grade(pct as real, config.disk.warn, config.disk.crit), Some(pct as real), "%")
  }

  /** `DiskCollector.collect` given the outcome of running `df -h /` (`check=True`: a non-zero
      exit status raises). */
  function Collect(df: ProcOutcome, config: MonitorConfig): (r: MetricResult)
    ensures r.caption == Label(Disk) && r.icon == Icon(Disk)
    ensures r == ErrorSample(Disk) <==> !df.Completed? || df.code != 0 || DfFields(df.stdout).None?
  {
    if df.Completed? && df.code == 0 then FromFields(DfFields(df.stdout), config)
    else ErrorSample(Disk)
  }

  /** A filesystem row as `df` prints it, whose fifth column is `<pct>%`. */
  predicate IsDfRow(ws: seq<string>, pct: int)
  {
    && |ws| >= 5
    && (forall i :: 0 <= i < |ws| ==> ws[i] != [] && NoSpace(ws[i]))
    && ws[4] == IntToString(pct) + "%"
  }

  /** Removing the percent sign from `<n>%` leaves the number's text. */
  lemma RemovePercent(n: int)
    ensures RemoveAll(IntToString(n) + "%", '%') == IntToString(n)
  {
    RemoveAllAppend(IntToString(n), "%", '%');
    assert RemoveAll("%", '%') == "";
  }

  /** On output shaped like `df`'s, the collector reports the row's percentage and copies the
      used and size columns verbatim. */
  lemma CollectOfDfOutput(lines: seq<string>, row: seq<string>, pct: int, config: MonitorConfig)
    requires forall i :: 0 <= i < |lines| ==> NoLineBreak(lines[i])
    requires |lines| >= 2 && lines[1] == JoinWords(row)
    requires IsDfRow(row, pct)
    ensures var r := Collect(Completed(0, JoinLines(lines)), config);
      && r.value == Plain(row[2] + " / " + row[1])
      && r.percentage == Some(pct as real)
      && r.color == Grade(pct as real, config.disk.warn, config.disk.crit)
  {
    LineWordsOfTable(lines, 1, row);
    DfFieldsOfRow(JoinLines(lines), row, pct);
  }

  lemma DfFieldsOfRow(text: string, row: seq<string>, pct: int)
    requires LineWords(text, 1) == Some(row) && IsDfRow(row, pct)
    ensures DfFields(text) == Some((pct, row[2], row[1]))
  {
    RemovePercent(pct);
    ParseIntToString(pct);
  }

  /** `DiskCollector.available`: running `df -h /` succeeded. `FileNotFoundError` and
      `CalledProcessError` (a non-zero exit) give `False`; any other exception escapes. */
  function Available(df: ProcOutcome): (r: Outcome<bool>)
    ensures r == Returned(true) <==> df.Completed? && df.code == 0
    ensures r == Returned(false) <==> (df.Completed? && df.code != 0) || df.NotFound?
    ensures r.Raised? <==> df.TimedOut? || df.Failed?
  {
    match df
    case Completed(code, _) => Returned(code == 0)
    case NotFound => Returned(false)
    case _ => Raised
  }
}
