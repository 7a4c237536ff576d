/** `MemoryCollector`: used memory from the `Mem:` row of `free -m`. */
module Memory {
  import opened Env
  import opened Text
  import opened Numeric
  import opened Collector
  import opened Config

  /** The total and available columns (1 and 6) of the second output line, in MiB. `None`
      stands for the `IndexError` or `ValueError` the parse raises. */
  function FreeFields(stdout: string): (r: Option<(int, int)>)
    ensures r.Some? ==> LineWords(stdout, 1).Some? && |LineWords(stdout, 1).value| >= 7
    ensures r.Some? ==> ParseInt(LineWords(stdout, 1).value[1]) == Some(r.value.0)
    ensures r.Some? ==> ParseInt(LineWords(stdout, 1).value[6]) == Some(r.value.1)
  {
    var parts := LineWords(stdout, 1);
    if parts.None? || |parts.value| < 7 then None
    else
      var total := ParseInt(parts.value[1]);
      var available := ParseInt(parts.value[6]);
      if total.None? || available.None? then None else Some((total.value, available.value))
  }

  /** `100 * (1 - available / total)`. */
  function UsedPercent(total: int, available: int): real
    requires total != 0
  {
    100.0 * (1.0 - available as real / total as real)
  }

  /** The percentage is the share of the total that is in use. */
  lemma UsedPercentIsUsedShare(total: int, available: int)
    requires total != 0
    ensures UsedPercent(total, available) * total as real == 100.0 * (total - available) as real
  {
    var q := available as real / total as real;
    assert q * total as real == available as real;
    assert (1.0 - q) * total as real == total as real - available as real;
  }

  /** With no more available than there is in total, the percentage is in 0..100, before and
      after rounding. */
  lemma UsedPercentInRange(total: int, available: int)
    requires 0 <= available <= total && total > 0
    ensures 0.0 <= UsedPercent(total, available) <= 100.0
    ensures 0.0 <= RoundTenths(UsedPercent(total, available)) <= 100.0
  {
    var q := available as real / total as real;
    assert q * total as real == available as real;
    assert 0.0 <= q <= 1.0;
    RoundTenthsInRange(UsedPercent(total, available));
  }

  /** The sample built from the parsed (total, available) pair. A zero total raises
      `ZeroDivisionError`, which ends in the error sample. */
  function FromFields(fields: Option<(int, int)>, config: MonitorConfig): (r: MetricResult)
    ensures r.caption == Label(Memory) && r.icon == Icon(Memory)
    ensures r == ErrorSample(Memory) <==> fields.None? || fields.value.0 == 0
    ensures fields.Some? && fields.value.0 != 0 ==>
      var (total, available) := fields.value;
      && r.value == Plain(IntToString(total - available) + "M / " + IntToString(total) + "M")
      && r.color == Grade(UsedPercent(total, available), config.memory.warn, config.memory.crit)
      && r.percentage == Some(RoundTenths(UsedPercent(total, available)))
      && r.unit == "%"
  {
    if fields.None? || fields.value.0 == 0 then ErrorSample(Memory)
    else
      var (total, available) := fields.value;
      var pct := UsedPercent(total, available);
      MetricResult(Label(Memory), Plain(IntToString(total - available) + "M / " + IntToString(total) + "M"),
        Icon(Memory), Grade(pct, config.memory.warn, config.memory.crit), Some(RoundTenths(pct)), "%")
  }

  /** `MemoryCollector.collect` given the outcome of running `free -m`. With `check=True` a
      non-zero exit status raises, so only exit status 0 gets to the parse. */
  function Collect(free: ProcOutcome, config: MonitorConfig): (r: MetricResult)
    ensures r.caption == Label(Memory) && r.icon == Icon(Memory)
    ensures r == ErrorSample(Memory) <==>
      !free.Completed? || free.code != 0 || FreeFields(free.stdout).None? || FreeFields(free.stdout).value.0 == 0
  {
    if free.Completed? && free.code == 0 then FromFields(FreeFields(free.stdout), config)
    else ErrorSample(Memory)
  }

  /** A `Mem:` row as `free -m` prints it: the label, then the columns. */
  predicate IsFreeRow(ws: seq<string>, total: int, available: int)
  {
    && |ws| >= 7
    && (forall i :: 0 <= i < |ws| ==> ws[i] != [] && NoSpace(ws[i]))
    && ws[1] == IntToString(total) && ws[6] == IntToString(available)
  }

  /** On output shaped like `free -m`'s (any lines, the second of them a `Mem:` row), the
      collector reports that row's columns. */
  lemma CollectOfFreeOutput(lines: seq<string>, row: seq<string>, total: int, available: int, config: MonitorConfig)
    requires forall i :: 0 <= i < |lines| ==> NoLineBreak(lines[i])
    requires |lines| >= 2 && lines[1] == JoinWords(row)
    requires IsFreeRow(row, total, available) && total != 0
    ensures var r := Collect(Completed(0, JoinLines(lines)), config);
      && r.value == Plain(IntToString(total - available) + "M / " + IntToString(total) + "M")
      && r.percentage == Some(RoundTenths(UsedPercent(total, available)))
  {
    FreeFieldsOfOutput(lines, row, total, available);
  }

  lemma FreeFieldsOfOutput(lines: seq<string>, row: seq<string>, total: int, available: int)
    requires forall i :: 0 <= i < |lines| ==> NoLineBreak(lines[i])
    requires |lines| >= 2 && lines[1] == JoinWords(row)
    requires IsFreeRow(row, total, available)
    ensures FreeFields(JoinLines(lines)) == Some((total, available))
  {
    LineWordsOfTable(lines, 1, row);
    FreeFieldsOfRow(JoinLines(lines), row, total, available);
  }

  lemma FreeFieldsOfRow(text: string, row: seq<string>, total: int, available: int)
    requires LineWords(text, 1) == Some(row) && IsFreeRow(row, total, available)
    ensures FreeFields(text) == Some((total, available))
  {
    ParseIntToString(total);
    ParseIntToString(available);
  }

  /** `MemoryCollector.available`: running `free -m` succeeded. `FileNotFoundError` and
      `CalledProcessError` (a non-zero exit) give `False`; any other exception escapes. */
  function Available(free: ProcOutcome): (r: Outcome<bool>)
    ensures r == Returned(true) <==> free.Completed? && free.code == 0
    ensures r == Returned(false) <==> (free.Completed? && free.code != 0) || free.NotFound?
    ensures r.Raised? <==> free.TimedOut? || free.Failed?
  {
    match free
    case Completed(code, _) => Returned(code == 0)
    case NotFound => Returned(false)
    case _ => Raised
  }
}
