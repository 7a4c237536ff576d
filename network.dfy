/** `NetworkCollector`: download and upload rates from the byte counters in /proc/net/dev,
    as differences between the current read and the one kept from the previous call. */
module Network {
  import opened Env
  import opened Text
  import opened Numeric
  import opened Collector

  // ---------------------------------------------------------------------------------------
  // Reading the counters

  /** The interface name before the colon is `lo` once stripped. */
  predicate IsLoopback(line: string)
  {
    IsLoName(Partition(line, ':').0)
  }

  /** An interface name that is `lo` once stripped. */
  predicate IsLoName(name: string)
  {
    Strip(name) == "lo"
  }

  /** The received and sent byte counters of one interface line: fields 0 and 8 after the
      colon. `None` stands for the `IndexError` or `ValueError` the parse raises. */
  function LineCounters(line: string): (r: Option<(int, int)>)
  {
    var fields := Words(Partition(line, ':').1);
    if |fields| < 9 then None
    else
      var rx := ParseInt(fields[0]);
      var tx := ParseInt(fields[8]);
      if rx.None? || tx.None? then None else Some((rx.value, tx.value))
  }

  /** The totals over the interface lines: the sum of the counters of every line that is not
      the loopback interface. `None` when some other line cannot be parsed. */
  function DevTotals(lines: seq<string>): (r: Option<(int, int)>)
  {
    if lines == [] then Some((0, 0)) else AddLine(DevTotals(lines[..|lines| - 1]), lines[|lines| - 1])
  }

  /** The totals after one more line: unchanged for the loopback interface, otherwise
      increased by the line's counters. */
  function AddLine(totals: Option<(int, int)>, line: string): (r: Option<(int, int)>)
  {
    if totals.None? then None
    else if IsLoopback(line) then totals
    else
      var c := LineCounters(line);
      if c.None? then None else Some((totals.value.0 + c.value.0, totals.value.1 + c.value.1))
  }

  /** `_read_bytes` on the text of /proc/net/dev (`None`: the read raised): the two header
      lines are skipped and the rest are summed. */
  function ReadBytesSpec(dev: Option<string>): (r: Option<(int, int)>)
  {
    if dev.None? then None else DevTotals(Drop(SplitLines(dev.value), 2))
  }

  /** `lines[n:]`, which is empty when there are fewer than `n` lines. */
  function Drop(lines: seq<string>, n: nat): (r: seq<string>)
    ensures n <= |lines| ==> r == lines[n..]
    ensures n > |lines| ==> r == []
  {
    if n <= |lines| then lines[n..] else []
  }

  /** Once the lines read so far fail to parse, so does the whole file. */
  lemma {:induction false} FailureIsFinal(lines: seq<string>, k: nat)
    requires k <= |lines| && DevTotals(lines[..k]).None?
    ensures DevTotals(lines).None?
    decreases |lines| - k
  {
    if k < |lines| {
      assert lines[..k + 1][..k] == lines[..k];
      FailureIsFinal(lines, k + 1);
    } else {
      assert lines[..k] == lines;
    }
  }

  lemma TotalsStep(lines: seq<string>, i: nat)
    requires i < |lines|
    ensures DevTotals(lines[..i + 1]) == AddLine(DevTotals(lines[..i]), lines[i])
  {
    assert lines[..i + 1][..i] == lines[..i];
  }

  /** `_read_bytes`: the loop that accumulates the two totals line by line. */
  method ReadBytes(dev: Option<string>) returns (r: Option<(int, int)>)
    ensures r == ReadBytesSpec(dev)
  {
    if dev.None? {
      return None;
    }
    var lines := Drop(SplitLines(dev.value), 2);
    var rxTotal, txTotal := 0, 0;
    var i := 0;
    while i < |lines|
      invariant 0 <= i <= |lines|
      invariant DevTotals(lines[..i]) == Some((rxTotal, txTotal))
    {
      TotalsStep(lines, i);
      var next := AddLineTo(rxTotal, txTotal, lines[i]);
      if next.None? {
        FailureIsFinal(lines, i + 1);
        return None;
      }
      rxTotal, txTotal := next.value.0, next.value.1;
      i := i + 1;
    }
    assert lines[..i] == lines;
    r := Some((rxTotal, txTotal));
  }

  /** The body of the loop in `_read_bytes`: skip the loopback interface, otherwise add the
      line's two counters to the totals. */
  method AddLineTo(rxTotal: int, txTotal: int, line: string) returns (r: Option<(int, int)>)
    ensures r == AddLine(Some((rxTotal, txTotal)), line)
    ensures IsLoopback(line) ==> r == Some((rxTotal, txTotal))
    ensures !IsLoopback(line) && LineCounters(line).None? ==> r == None
    ensures !IsLoopback(line) && LineCounters(line).Some? ==>
      r == Some((rxTotal + LineCounters(line).value.0, txTotal + LineCounters(line).value.1))
  {
    var totals := Some((rxTotal, txTotal));
    if IsLoopback(line) {
      return totals;
    }
    var c := LineCounters(line);
    assert AddLine(totals, line) == if c.None? then None else Some((rxTotal + c.value.0, txTotal + c.value.1));
    if c.None? {
      return None;
    }
    r := Some((rxTotal + c.value.0, txTotal + c.value.1));
  }

  /** The header lines never count, whatever they hold. */
  lemma ReadBytesSkipsHeader(lines: seq<string>)
    requires |lines| >= 2
    requires forall i :: 0 <= i < |lines| ==> NoLineBreak(lines[i])
    ensures ReadBytesSpec(Some(JoinLines(lines))) == DevTotals(lines[2..])
  {
    SplitJoinLines(lines);
  }

  /** An interface row as the kernel writes it: the name, a colon, then the counters. */
  function DevRow(iface: string, counters: seq<int>): string
  {
    iface + ":" + JoinWords(Decimals(counters))
  }

  /** The row's counters are its first (received bytes) and ninth (sent bytes) numbers. */
  lemma LineCountersOfRow(iface: string, counters: seq<int>)
    requires ':' !in iface && |counters| >= 9
    ensures LineCounters(DevRow(iface, counters)) == Some((counters[0], counters[8]))
    ensures Partition(DevRow(iface, counters), ':').0 == iface
  {
    var data := JoinWords(Decimals(counters));
    PartitionAtFirst(iface, data);
    SplitJoinWords(Decimals(counters));
    CountersOfFields(DevRow(iface, counters), Decimals(counters), counters);
  }

  /** The interface rows of a device table, one per (name, counters) entry. */
  function DevRows(ifaces: seq<(string, seq<int>)>): (rows: seq<string>)
    ensures |rows| == |ifaces|
    ensures forall i :: 0 <= i < |ifaces| ==> rows[i] == DevRow(ifaces[i].0, ifaces[i].1)
  {
    seq(|ifaces|, i requires 0 <= i < |ifaces| => DevRow(ifaces[i].0, ifaces[i].1))
  }

  /** Counter `j` of an interface, where it has one. */
  function Counter(counters: seq<int>, j: nat): int
  {
    if j < |counters| then counters[j] else 0
  }

  /** Which interfaces are the loopback one. */
  function LoFlags(ifaces: seq<(string, seq<int>)>): (f: seq<bool>)
    ensures |f| == |ifaces|
    ensures forall i :: 0 <= i < |ifaces| ==> f[i] == IsLoName(ifaces[i].0)
  {
    seq(|ifaces|, i requires 0 <= i < |ifaces| => IsLoName(ifaces[i].0))
  }

  /** Counter `j` of every interface. */
  function Column(ifaces: seq<(string, seq<int>)>, j: nat): (c: seq<int>)
    ensures |c| == |ifaces|
    ensures forall i :: 0 <= i < |ifaces| ==> c[i] == Counter(ifaces[i].1, j)
  {
    seq(|ifaces|, i requires 0 <= i < |ifaces| => Counter(ifaces[i].1, j))
  }

  /** The sum of the values whose flag is not set. */
  function SkipSum(skip: seq<bool>, values: seq<int>): int
    requires |skip| == |values|
  {
    if values == [] then 0
    else SkipSum(skip[..|skip| - 1], values[..|values| - 1]) + (if skip[|skip| - 1] then 0 else values[|values| - 1])
  }

  /** The received bytes (counter 0) summed over every interface whose stripped name is not
      `lo`. */
  function RxSum(ifaces: seq<(string, seq<int>)>): int
  {
    SkipSum(LoFlags(ifaces), Column(ifaces, 0))
  }

  /** The sent bytes (counter 8) summed over every interface whose stripped name is not
      `lo`. */
  function TxSum(ifaces: seq<(string, seq<int>)>): int
  {
    SkipSum(LoFlags(ifaces), Column(ifaces, 8))
  }

  /** The totals over lines whose interface names and counters are known: the sums of
      counter 0 (received) and counter 8 (sent) over every interface other than `lo`. */
  lemma DevTotalsOfCounters(lines: seq<string>, ifaces: seq<(string, seq<int>)>)
    requires |lines| == |ifaces|
    requires forall i :: 0 <= i < |lines| ==>
      IsLoopback(lines[i]) == IsLoName(ifaces[i].0)
      && LineCounters(lines[i]) == Some((Counter(ifaces[i].1, 0), Counter(ifaces[i].1, 8)))
    ensures DevTotals(lines) == Some((RxSum(ifaces), TxSum(ifaces)))
  {
    SummariesOfCounters(lines, ifaces);
    DevTotalsIsFold(lines);
    FoldOfKnown(Summaries(lines), LoFlags(ifaces), Column(ifaces, 0), Column(ifaces, 8));
  }

  lemma SummariesOfCounters(lines: seq<string>, ifaces: seq<(string, seq<int>)>)
    requires |lines| == |ifaces|
    requires forall i :: 0 <= i < |lines| ==>
      IsLoopback(lines[i]) == IsLoName(ifaces[i].0)
      && LineCounters(lines[i]) == Some((Counter(ifaces[i].1, 0), Counter(ifaces[i].1, 8)))
    ensures forall i :: 0 <= i < |lines| ==>
      Summaries(lines)[i] == (LoFlags(ifaces)[i], Some((Column(ifaces, 0)[i], Column(ifaces, 8)[i])))
  {
  }

  /** What one line contributes: whether it is the loopback line, and its counters. */
  function Summaries(lines: seq<string>): (r: seq<(bool, Option<(int, int)>)>)
    ensures |r| == |lines|
    ensures forall i :: 0 <= i < |lines| ==> r[i] == (IsLoopback(lines[i]), LineCounters(lines[i]))
  {
    seq(|lines|, i requires 0 <= i < |lines| => (IsLoopback(lines[i]), LineCounters(lines[i])))
  }

  /** `AddLine` on a line's summary. */
  function AddSummary(totals: Option<(int, int)>, s: (bool, Option<(int, int)>)): Option<(int, int)>
  {
    if totals.None? then None
    else if s.0 then totals
    else if s.1.None? then None else Some((totals.value.0 + s.1.value.0, totals.value.1 + s.1.value.1))
  }

  /** `DevTotals` on the lines' summaries. */
  function Fold(infos: seq<(bool, Option<(int, int)>)>): Option<(int, int)>
  {
    if infos == [] then Some((0, 0)) else AddSummary(Fold(infos[..|infos| - 1]), infos[|infos| - 1])
  }

  /** The totals depend on each line only through its summary. */
  lemma {:induction false} DevTotalsIsFold(lines: seq<string>)
    ensures DevTotals(lines) == Fold(Summaries(lines))
  {
    if lines != [] {
      var n := |lines| - 1;
      DevTotalsIsFold(lines[..n]);
      assert Summaries(lines)[..n] == Summaries(lines[..n]);
      AddLineIsSummary(DevTotals(lines[..n]), lines[n]);
    }
  }

  lemma AddLineIsSummary(totals: Option<(int, int)>, line: string)
    ensures AddLine(totals, line) == AddSummary(totals, (IsLoopback(line), LineCounters(line)))
  {
  }

  /** Summaries that all parse fold to the sums of their counters over the lines not
      skipped. */
  lemma {:induction false} FoldOfKnown(infos: seq<(bool, Option<(int, int)>)>, skip: seq<bool>, rx: seq<int>, tx: seq<int>)
    requires |infos| == |skip| == |rx| == |tx|
    requires forall i :: 0 <= i < |infos| ==> infos[i] == (skip[i], Some((rx[i], tx[i])))
    ensures Fold(infos) == Some((SkipSum(skip, rx), SkipSum(skip, tx)))
  {
    if infos != [] {
      var n := |infos| - 1;
      FoldOfKnown(infos[..n], skip[..n], rx[..n], tx[..n]);
    }
  }

  /** Every row of a device table is the loopback row exactly when its interface is `lo`,
      and carries its counters 0 and 8. */
  lemma DevRowsCounters(ifaces: seq<(string, seq<int>)>)
    requires forall i :: 0 <= i < |ifaces| ==> ':' !in ifaces[i].0 && |ifaces[i].1| >= 9
    ensures forall i :: 0 <= i < |ifaces| ==>
      IsLoopback(DevRows(ifaces)[i]) == IsLoName(ifaces[i].0)
      && LineCounters(DevRows(ifaces)[i]) == Some((Counter(ifaces[i].1, 0), Counter(ifaces[i].1, 8)))
  {
    forall i | 0 <= i < |ifaces|
      ensures IsLoopback(DevRows(ifaces)[i]) == IsLoName(ifaces[i].0)
      ensures LineCounters(DevRows(ifaces)[i]) == Some((Counter(ifaces[i].1, 0), Counter(ifaces[i].1, 8)))
    {
      LineCountersOfRow(ifaces[i].0, ifaces[i].1);
    }
  }

  /** Over interface rows as the kernel writes them, the totals are the sums of counter 0
      (received) and counter 8 (sent) over every interface other than the loopback one. */
  lemma DevTotalsOfRows(ifaces: seq<(string, seq<int>)>)
    requires forall i :: 0 <= i < |ifaces| ==> ':' !in ifaces[i].0 && |ifaces[i].1| >= 9
    ensures DevTotals(DevRows(ifaces)) == Some((RxSum(ifaces), TxSum(ifaces)))
  {
    DevRowsCounters(ifaces);
    DevTotalsOfCounters(DevRows(ifaces), ifaces);
  }

  /** `_read_bytes` on a whole /proc/net/dev file: two header lines of any content, then one
      row per interface, give the non-loopback sums. */
  lemma ReadBytesOfDevFile(lines: seq<string>, ifaces: seq<(string, seq<int>)>)
    requires |lines| >= 2 && lines[2..] == DevRows(ifaces)
    requires forall i :: 0 <= i < |lines| ==> NoLineBreak(lines[i])
    requires forall i :: 0 <= i < |ifaces| ==> ':' !in ifaces[i].0 && |ifaces[i].1| >= 9
    ensures ReadBytesSpec(Some(JoinLines(lines))) == Some((RxSum(ifaces), TxSum(ifaces)))
  {
    ReadBytesSkipsHeader(lines);
    DevTotalsOfRows(ifaces);
  }

  lemma {:induction false} PartitionAtFirst(before: string, after: string)
    requires ':' !in before
    ensures Partition(before + ":" + after, ':') == (before, after)
  {
    var s := before + ":" + after;
    if before != [] {
      assert s[1..] == before[1..] + ":" + after;
      PartitionAtFirst(before[1..], after);
      assert [before[0]] + before[1..] == before;
    }
  }

  lemma CountersOfFields(line: string, fields: seq<string>, counters: seq<int>)
    requires Words(Partition(line, ':').1) == fields
    requires |counters| >= 9 && fields == Decimals(counters)
    ensures LineCounters(line) == Some((counters[0], counters[8]))
  {
    ParseIntToString(counters[0]);
    ParseIntToString(counters[8]);
  }

  // ---------------------------------------------------------------------------------------
  // Rates

  /** How many bytes per second one unit stands for. */
  function Scale(u: SpeedUnit): real
  {
    match u
    case BytesPerSec => 1.0
    case KiloBytesPerSec => 1000.0
    case MegaBytesPerSec => 1000000.0
  }

  /** `_human_speed`: the unit is chosen by the size of the rate (decimal prefixes), and the
      amount is the rate in that unit. */
  function HumanSpeed(bps: real): (s: Speed)
    ensures s.unit == MegaBytesPerSec <==> bps >= 1000000.0
    ensures s.unit == KiloBytesPerSec <==> 1000.0 <= bps < 1000000.0
    ensures s.unit == BytesPerSec <==> bps < 1000.0
    ensures s.amount * Scale(s.unit) == bps
  {
    if bps >= 1000000.0 then Speed(bps / 1000000.0, MegaBytesPerSec)
    else if bps >= 1000.0 then Speed(bps / 1000.0, KiloBytesPerSec)
    else Speed(bps, BytesPerSec)
  }

  /** Outside the bytes range the displayed amount is below 1000 only up to the megabyte
      unit, which is open-ended. */
  lemma HumanSpeedAmount(bps: real)
    requires 0.0 <= bps
    ensures HumanSpeed(bps).unit != MegaBytesPerSec ==> HumanSpeed(bps).amount < 1000.0
    ensures HumanSpeed(bps).unit != BytesPerSec ==> HumanSpeed(bps).amount >= 1.0
  {
  }

  /** One read of the counters together with the clock. */
  datatype Snapshot = Snapshot(rx: int, tx: int, at: real)

  /** The time between two reads; a clock that did not advance counts as one second. */
  function Elapsed(prevAt: real, now: real): (dt: real)
    ensures dt > 0.0
    ensures now - prevAt > 0.0 ==> dt == now - prevAt
    ensures now - prevAt <= 0.0 ==> dt == 1.0
  {
    var dt := now - prevAt;
    if dt <= 0.0 then 1.0 else dt
  }

  /** The value shown for a change from `prev` to the counters `(rx, tx)` read at `now`. */
  function Rates(prev: Snapshot, rx: int, tx: int, now: real): (v: Value)
    ensures v.Throughput?
    ensures v.down == HumanSpeed((rx - prev.rx) as real / Elapsed(prev.at, now))
    ensures v.up == HumanSpeed((tx - prev.tx) as real / Elapsed(prev.at, now))
    ensures v.down.amount * Scale(v.down.unit) * Elapsed(prev.at, now) == (rx - prev.rx) as real
    ensures v.up.amount * Scale(v.up.unit) * Elapsed(prev.at, now) == (tx - prev.tx) as real
  {
    var dt := Elapsed(prev.at, now);
    var down := (rx - prev.rx) as real / dt;
    var up := (tx - prev.tx) as real / dt;
    assert down * dt == (rx - prev.rx) as real;
    assert up * dt == (tx - prev.tx) as real;
    Throughput(HumanSpeed(down), HumanSpeed(up))
  }

  /** One call of `collect`, given what it read: the sample and the new `_prev`. */
  function StepFrom(prev: Option<Snapshot>, counters: Option<(int, int)>, now: real): (r: (MetricResult, Option<Snapshot>))
    ensures r.0.caption == Label(Network) && r.0.icon == Icon(Network)
    ensures r.0.percentage == None && r.0.unit == ""
    ensures counters.None? ==> r.0 == ErrorSample(Network) && r.1 == prev
    ensures counters.Some? ==> r.1 == Some(Snapshot(counters.value.0, counters.value.1, now))
    ensures counters.Some? && prev.None? ==> r.0.value == Plain("measuring...") && r.0.color == Dim
    ensures counters.Some? && prev.Some? ==>
      r.0.value == Rates(prev.value, counters.value.0, counters.value.1, now) && r.0.color == Cyan
  {
    if counters.None? then (ErrorSample(Network), prev)
    else
      var (rx, tx) := counters.value;
      var snap := Snapshot(rx, tx, now);
      if prev.None? then (Sample(Label(Network), Plain("measuring..."), Icon(Network), Dim), Some(snap))
      else (Sample(Label(Network), Rates(prev.value, rx, tx, now), Icon(Network), Cyan), Some(snap))
  }

  /** `NetworkCollector.collect` as a function of the stored reading, the text of
      /proc/net/dev and the clock. */
  function Step(prev: Option<Snapshot>, dev: Option<string>, now: real): (MetricResult, Option<Snapshot>)
  {
    StepFrom(prev, ReadBytesSpec(dev), now)
  }

  /** Two successful calls: the first only measures, the second reports the byte differences
      over the elapsed time, and the stored reading is always the latest. */
  lemma TwoCalls(rx1: int, tx1: int, t1: real, rx2: int, tx2: int, t2: real)
    ensures var (first, s1) := StepFrom(None, Some((rx1, tx1)), t1);
      var (second, s2) := StepFrom(s1, Some((rx2, tx2)), t2);
      && first.value == Plain("measuring...")
      && s2 == Some(Snapshot(rx2, tx2, t2))
      && second.value.Throughput?
      && second.value.down == HumanSpeed((rx2 - rx1) as real / Elapsed(t1, t2))
      && second.value.up == HumanSpeed((tx2 - tx1) as real / Elapsed(t1, t2))
      && second.value.down.amount * Scale(second.value.down.unit) * Elapsed(t1, t2) == (rx2 - rx1) as real
      && second.value.up.amount * Scale(second.value.up.unit) * Elapsed(t1, t2) == (tx2 - tx1) as real
  {
    var (first, s1) := StepFrom(None, Some((rx1, tx1)), t1);
    assert s1 == Some(Snapshot(rx1, tx1, t1));
    var (second, s2) := StepFrom(s1, Some((rx2, tx2)), t2);
    assert second.value == Rates(Snapshot(rx1, tx1, t1), rx2, tx2, t2);
  }

  /** A million bytes received in one second shows as 1.0 MB/s, and nothing sent as 0.0 B/s. */
  lemma OneMegabyteInOneSecond()
    ensures StepFrom(Some(Snapshot(0, 0, 0.0)), Some((1000000, 0)), 1.0).0.value
      == Throughput(Speed(1.0, MegaBytesPerSec), Speed(0.0, BytesPerSec))
  {
  }

  /** The collector object: `_prev` is the only state, and `collect` replaces it. */
  class NetworkCollector {
    var prev: Option<Snapshot>

    /** `__init__`: no reading yet. */
    constructor()
      ensures prev == None
    {
      prev := None;
    }

    /** `collect`: read the counters, then either store the first reading or report the rates
        since the stored one and store the new one; a failed read leaves the stored one. */
    method Collect(dev: Option<string>, now: real) returns (r: MetricResult)
      modifies this
      ensures (r, prev) == Step(old(prev), dev, now)
    {
      var counters := ReadBytes(dev);
      if counters.None? {
        return ErrorSample(Network);
      }
      var (rx, tx) := counters.value;
      if prev.None? {
        prev := Some(Snapshot(rx, tx, now));
        return Sample(Label(Network), Plain("measuring..."), Icon(Network), Dim);
      }
      var value := Rates(prev.value, rx, tx, now);
      prev := Some(Snapshot(rx, tx, now));
      r := Sample(Label(Network), value, Icon(Network), Cyan);
    }
  }

  /** `NetworkCollector.available`: whether /proc/net/dev exists. */
  function Available(devExists: bool): Outcome<bool>
  {
    Returned(devExists)
  }
}
