/** `CpuCollector`: utilisation from two snapshots of the aggregate `cpu` line of /proc/stat,
    taken a tenth of a second apart. */
module Cpu {
  import opened Env
  import opened Text
  import opened Numeric
  import opened Collector
  import opened Config

  /** `_read_cpu_times` on the text of /proc/stat (`None`: the read raised). The numbers after
      the label on the first line are the fields; idle time is the fourth plus the fifth (idle
      and iowait), total time is their sum. `None` stands for the `IndexError` or `ValueError`
      the parse raises. */
  function CpuTimes(stat: Option<string>): (r: Option<(int, int)>)
  {
    if stat.None? then None else FirstLineTimes(SplitLines(stat.value))
  }

  /** The (idle, total) pair of the first line, which needs at least five counters. */
  function FirstLineTimes(lines: seq<string>): (r: Option<(int, int)>)
  {
    if lines == [] then None else Times(LineFields(lines[0]))
  }

  function Times(fields: Option<seq<int>>): (r: Option<(int, int)>)
  {
    if fields.None? || |fields.value| < 5 then None
    else Some((fields.value[3] + fields.value[4], Sum(fields.value)))
  }

  /** The counters of one /proc/stat line: every word after the label, as integers. */
  function LineFields(line: string): (r: Option<seq<int>>)
    ensures r.Some? && Words(line) != [] ==> |r.value| == |Words(line)| - 1
  {
    var words := Words(line);
    ParseInts(if words == [] then [] else words[1..])
  }

  /** The first line of /proc/stat as the kernel writes it: the label, then the counters. */
  function StatLine(fields: seq<int>): string
  {
    JoinWords(["cpu"] + Decimals(fields))
  }

  /** Reading counters back from the text the kernel writes yields idle + iowait and the
      sum of every counter. */
  lemma CpuTimesOfStat(fields: seq<int>, rest: seq<string>)
    requires |fields| >= 5
    requires forall i :: 0 <= i < |rest| ==> NoLineBreak(rest[i])
    ensures CpuTimes(Some(JoinLines([StatLine(fields)] + rest))) == Some((fields[3] + fields[4], Sum(fields)))
  {
    JoinWordsOneLine(["cpu"] + Decimals(fields));
    var ls := [StatLine(fields)] + rest;
    SplitJoinLines(ls);
    LineFieldsOfStat(fields);
    FirstLineTimesOf(ls, fields);
  }

  lemma FirstLineTimesOf(lines: seq<string>, fields: seq<int>)
    requires lines != [] && LineFields(lines[0]) == Some(fields) && |fields| >= 5
    ensures FirstLineTimes(lines) == Some((fields[3] + fields[4], Sum(fields)))
  {
  }

  lemma LineFieldsOfStat(fields: seq<int>)
    ensures LineFields(StatLine(fields)) == Some(fields)
  {
    var ws := ["cpu"] + Decimals(fields);
    SplitJoinWords(ws);
    assert Words(StatLine(fields)) == ws;
    assert ws[1..] == Decimals(fields);
    ParseIntsDecimals(fields);
  }

  /** `100 * (1 - d_idle / d_total)`, or 0 when total time did not move. */
  function CpuPercent(dIdle: int, dTotal: int): real
  {
    if dTotal != 0 then 100.0 * (1.0 - dIdle as real / dTotal as real) else 0.0
  }

  /** When idle time advances by no more than total time, utilisation is a percentage. */
  lemma CpuPercentInRange(dIdle: int, dTotal: int)
    requires 0 <= dIdle <= dTotal
    ensures 0.0 <= CpuPercent(dIdle, dTotal) <= 100.0
  {
    if dTotal != 0 {
      var q := dIdle as real / dTotal as real;
      assert q * dTotal as real == dIdle as real;
      assert 0.0 <= q <= 1.0;
    }
  }

  /** `CpuCollector.collect` given the two reads of /proc/stat. */
  function Collect(before: Option<string>, after: Option<string>, config: MonitorConfig): (r: MetricResult)
    ensures r.caption == Label(Cpu) && r.icon == Icon(Cpu)
    ensures r == ErrorSample(Cpu) <==> CpuTimes(before).None? || CpuTimes(after).None?
  {
    FromTimes(CpuTimes(before), CpuTimes(after), config)
  }

  /** The result built from the (idle, total) pairs of the two reads. */
  function FromTimes(t1: Option<(int, int)>, t2: Option<(int, int)>, config: MonitorConfig): (r: MetricResult)
    ensures r.caption == Label(Cpu) && r.icon == Icon(Cpu)
    ensures r == ErrorSample(Cpu) <==> t1.None? || t2.None?
    ensures t1.Some? && t2.Some? ==>
      var pct := RoundTenths(CpuPercent(t2.value.0 - t1.value.0, t2.value.1 - t1.value.1));
      && r.percentage == Some(pct)
      && r.value == Number(pct, Repr, "%")
      && r.color == Grade(pct, config.cpu.warn, config.cpu.crit)
      && r.unit == "%"
  {
    if t1.Some? && t2.Some? then
      var pct := RoundTenths(CpuPercent(t2.value.0 - t1.value.0, t2.value.1 - t1.value.1));
      MetricResult(Label(Cpu), Number(pct, Repr, "%"), Icon(Cpu),
        Grade(pct, config.cpu.warn, config.cpu.crit), Some(pct), "%")
    else ErrorSample(Cpu)
  }

  /** With counters that only move forward, and idle time moving no faster than total time, the
      recorded percentage stays within 0..100. */
  lemma CollectInRange(before: Option<string>, after: Option<string>, config: MonitorConfig)
    requires CpuTimes(before).Some? && CpuTimes(after).Some?
    requires 0 <= CpuTimes(after).value.0 - CpuTimes(before).value.0
                <= CpuTimes(after).value.1 - CpuTimes(before).value.1
    ensures Collect(before, after, config).percentage.Some?
    ensures 0.0 <= Collect(before, after, config).percentage.value <= 100.0
  {
    FromTimesInRange(CpuTimes(before).value, CpuTimes(after).value, config);
  }

  lemma FromTimesInRange(t1: (int, int), t2: (int, int), config: MonitorConfig)
    requires 0 <= t2.0 - t1.0 <= t2.1 - t1.1
    ensures FromTimes(Some(t1), Some(t2), config).percentage.Some?
    ensures 0.0 <= FromTimes(Some(t1), Some(t2), config).percentage.value <= 100.0
  {
    var p := CpuPercent(t2.0 - t1.0, t2.1 - t1.1);
    CpuPercentInRange(t2.0 - t1.0, t2.1 - t1.1);
    RoundTenthsInRange(p);
  }

  /** `CpuCollector.available`: whether /proc/stat exists. */
  function Available(statExists: bool): Outcome<bool>
  {
    Returned(statExists)
  }
}
