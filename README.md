# sysmon_tool in Dafny

A model of `sysmon_tool`, a terminal system dashboard, and the properties it
keeps. The model covers:

- The six metric collectors: disk, memory, CPU, network, temperature and
  pending updates. Each one parses what it reads, computes a percentage or a
  rate, and grades it green, yellow or red against its configured thresholds.
  Any failure gives a red "Error" sample.
- The bounded per-metric history tracker.
- The render model: sparkline glyphs, the colour rule, the uptime text, the
  rows of a metric panel, and the page layout (header, panels two to a row,
  footer).
- The program loop: collectors are discovered in registry order, and each
  cycle collects from every active collector, records the percentages and
  renders the page.
- The older three-panel dashboard (`SystemMonitor` with `PackageUpdater`).

File reads, command runs, clocks, the host name and the kernel release are
inputs:

- A file read is an `Option<string>`, where `None` means the read raised.
- A command run is a `ProcOutcome`:
  - `Completed(code, stdout)`;
  - `NotFound` (`FileNotFoundError`);
  - `TimedOut` (`TimeoutExpired`);
  - `Failed` (any other exception).
- An exception that escapes a function is the `Raised` case of `Outcome`.
- Python floats are exact reals. `round(x, 1)` is rounding to the nearest
  tenth, with ties to even.
- A float turned into text is kept as the number plus its format: `Repr` for
  `f"{x}"`, or `Fixed(n)` for `:.nf`. Integer and string formatting is exact.

Modules follow the source files:

| module | file |
|---|---|
| `Collector` | `collector.py` |
| `Config` | `config.py` |
| `Registry` | `collectors/__init__.py` |
| `Cpu`, `Memory`, `Disk`, `Updates`, `Temperature`, `Network` | the collectors |
| `Tracker` | `usage_tracker.py` |
| `Display` | `display.py` |
| `Monitor` | `main.py` |
| `Updater` | `updater.py` |
| `SystemMonitor` | `system_monitor.py` |

`Text` and `Numeric` model the Python builtins the code relies on:

- `Text`: `splitlines`, `split`, `strip`, `partition`, `replace`, `int`,
  `str`, `lower`.
- `Numeric`: `sum`, `max`, `min`, `int`, `//` and `%` on floats, `round`.

`env.dfy` holds the shared `Option`, `Outcome` and `ProcOutcome` types.

The code is imperative where the source is:

- `Tracker.UsageTracker` is a class whose map of series `record` updates in
  place.
- `Network.NetworkCollector` is a class whose `prev` field `collect`
  overwrites.
- These are methods with loops, each proved against a specification
  function:
  - `_read_bytes` (`Network.ReadBytes`);
  - the temperature zone loop (`Temperature.Collect`);
  - the two loops of `render` (`Display.PairUp`, `Display.Render`);
  - discovery and the sampling loop (`Monitor.Discover`,
    `Monitor.CollectCycle`, `Monitor.SampleLoop`, `Monitor.Run`).

The `Collector` protocol of `collector.py` (`name`, `collect`, a class-level
`available`) is the `Kind` datatype with per-variant dispatch in
`Monitor.Probe` and `Monitor.CollectOne`. `Cpu.Available` and
`Network.Available` return whether their `/proc` file exists, and
`Temperature.Available` whether any zone has a `temp` file.

## Model

| member | source | states |
|---|---|---|
| Collector.Sample | src/sysmon_tool/collector.py:7-14 | A `MetricResult` built from the four required fields has no percentage and an empty unit. The four fields are as given. |
| Collector.NamesAndLabelsDistinct | src/sysmon_tool/collector.py:17-25 | Different collector variants have different `name`s and different labels. |
| Collector.ErrorSample | src/sysmon_tool/collectors/cpu.py:52-55 | The catch-all sample has the collector's label and icon, value "Error", colour red and no percentage. |
| Collector.Grade | src/sysmon_tool/collectors/cpu.py:41-42 | The severity rule shared by all collectors: green iff x < warn, yellow iff warn ≤ x < crit, red iff x ≥ warn and x ≥ crit. |
| Collector.GradeMonotone | src/sysmon_tool/collectors/cpu.py:42 | A larger value is never graded less severe. |
| Config.DefaultConfig | src/sysmon_tool/config.py:5-19 | The defaults: a positive refresh interval and history size. Every threshold pair has warn < crit. Memory, CPU and temperature share one pair. |
| Registry.AllCollectors | src/sysmon_tool/collectors/__init__.py:8-15 | Exactly six collectors, none listed twice, in the order Disk, Memory, CPU, Network, Temperature, Updates. |
| Registry.Position | src/sysmon_tool/collectors/__init__.py:8-15 | Each variant's index in the registry, and the registry holds that variant there. |
| Registry.EveryKindListed | src/sysmon_tool/collectors/__init__.py:1-15 | Every collector variant the package defines is in the registry. |
| Cpu.LineFields | src/sysmon_tool/collectors/cpu.py:12 | The counters of a stat line are one fewer than its words: every word after the label. |
| Cpu.CpuTimesOfStat | src/sysmon_tool/collectors/cpu.py:10-15 | For /proc/stat text whose first line is `cpu` followed by the counters, the result is idle = fields[3] + fields[4] and total = the sum of all fields. |
| Cpu.CpuPercentInRange | src/sysmon_tool/collectors/cpu.py:36-38 | When idle time advances by no more than total time, 100·(1 − Δidle/Δtotal) lies in 0..100. The "Δtotal = 0 gives 0" case is included. |
| Cpu.FromTimes | src/sysmon_tool/collectors/cpu.py:30-55 | Error iff either read failed. Otherwise the one rounded percentage is the value, the colour's input and the stored percentage, with unit "%". |
| Cpu.Collect | src/sysmon_tool/collectors/cpu.py:30-55 | The CPU sample is the error sample exactly when one of the two /proc/stat reads does not parse. |
| Cpu.CollectInRange | src/sysmon_tool/collectors/cpu.py:36-49 | With counters that move forward and idle time no faster than total time, the recorded percentage is in 0..100. |
| Memory.FreeFields | src/sysmon_tool/collectors/memory.py:28-30 | Total and available are the integers in columns 1 and 6 of the second output line. The line must have at least 7 columns. |
| Memory.UsedPercentIsUsedShare | src/sysmon_tool/collectors/memory.py:31-32 | pct · total = 100 · (total − available): the percentage is the used share of the total. |
| Memory.UsedPercentInRange | src/sysmon_tool/collectors/memory.py:32-42 | With 0 ≤ available ≤ total, the percentage is in 0..100 both before and after rounding. |
| Memory.FromFields | src/sysmon_tool/collectors/memory.py:29-48 | Error iff unparsed or total = 0. Otherwise the value is "{used}M / {total}M" with used = total − available, the colour is graded on the unrounded pct, and the percentage is pct rounded to one decimal. |
| Memory.Collect | src/sysmon_tool/collectors/memory.py:23-48 | Error iff `free` did not exit with status 0 (`check=True`), the output does not parse, or the total is 0. |
| Memory.CollectOfFreeOutput | src/sysmon_tool/collectors/memory.py:25-42 | On output whose second line is a `Mem:` row, the sample reports that row's used/total text and rounded percentage. |
| Memory.Available | src/sysmon_tool/collectors/memory.py:16-21 | True iff exit status 0. False iff a non-zero exit or the tool is missing. Any other exception escapes. |
| Disk.DfFields | src/sysmon_tool/collectors/disk.py:28-30 | pct is column 4 with every "%" removed, parsed as an integer; used and size are columns 2 and 1 copied as text. |
| Disk.RemovePercent | src/sysmon_tool/collectors/disk.py:29 | Removing "%" from "<n>%" leaves the text of n. |
| Disk.FromFields | src/sysmon_tool/collectors/disk.py:29-46 | Error iff unparsed. Otherwise the value is "{used} / {total}" verbatim, the percentage is float(pct), the unit is "%", and the colour follows the disk thresholds. |
| Disk.Collect | src/sysmon_tool/collectors/disk.py:23-46 | Error iff `df` did not exit with status 0 or its output does not parse. |
| Disk.CollectOfDfOutput | src/sysmon_tool/collectors/disk.py:25-41 | On `df`-shaped output, the sample shows the row's size columns. Its percentage and colour come from the row's `NN%`. |
| Disk.Available | src/sysmon_tool/collectors/disk.py:16-21 | True iff exit status 0. False iff a non-zero exit or the tool is missing. Any other exception escapes. |
| Updates.PendingCount | src/sysmon_tool/collectors/updates.py:27-33 | There is a count iff the command ran. A non-zero exit status gives 0. |
| Updates.PendingCountOfList | src/sysmon_tool/collectors/updates.py:30-31 | With exit 0 and one package per line, the count is the number of packages. |
| Updates.Collect | src/sysmon_tool/collectors/updates.py:25-54 | Never a percentage. Error iff the command did not run. Count 0 gives "Up to date" in green. A positive count gives "{count} pending", graded by the update thresholds. |
| Updates.Available | src/sysmon_tool/collectors/updates.py:16-23 | True iff the command ran, whatever its exit status. False iff the tool is missing or timed out. Any other exception escapes. |
| Temperature.Readings | src/sysmon_tool/collectors/temperature.py:23-28 | At most one reading per zone. Zones without a `temp` file are skipped. |
| Temperature.ReadingsEmpty | src/sysmon_tool/collectors/temperature.py:24-30 | There are no readings exactly when no zone has a `temp` file. |
| Temperature.ZoneCelsiusOfCount | src/sysmon_tool/collectors/temperature.py:26-27 | A `temp` file holding "<n>\n" reads as n/1000 degrees. |
| Temperature.Reading | src/sysmon_tool/collectors/temperature.py:21-50 | Error iff a read or parse failed. No readings gives "N/A" in dim with no percentage. Otherwise the value is the maximum reading (`:.0f`), graded on the unclamped maximum, with percentage min(max, 100). |
| Temperature.ReadingClamped | src/sysmon_tool/collectors/temperature.py:35-44 | The percentage is at most 100 and is one of the readings or 100. It is at least every reading up to 100, and equals the maximum when that is at most 100. |
| Temperature.FailureIsFinal | src/sysmon_tool/collectors/temperature.py:24-28 | Once a prefix of the zones fails to read, the whole collection fails. |
| Temperature.Collect | src/sysmon_tool/collectors/temperature.py:21-50 | The zone loop returns exactly `Reading(zones, config)`. |
| Temperature.AvailableIffReadings | src/sysmon_tool/collectors/temperature.py:18-19 | When every zone is readable, the collector is available exactly when `collect` does not say "N/A". |
| Network.Drop | src/sysmon_tool/collectors/network.py:14 | `lines[n:]`: the suffix after n lines, or empty when there are fewer. |
| Network.ReadBytesSkipsHeader | src/sysmon_tool/collectors/network.py:14 | The first two lines never count: the totals are those of the lines after them. |
| Network.LineCountersOfRow | src/sysmon_tool/collectors/network.py:15-20 | On an interface row "name:counters", the interface is the text before the colon, rx is counter 0 and tx is counter 8. |
| Network.FailureIsFinal | src/sysmon_tool/collectors/network.py:14-20 | Once the lines read so far fail to parse, so does the whole file. |
| Network.AddLineTo | src/sysmon_tool/collectors/network.py:15-20 | The loop body, case by case. A line whose interface strips to `lo` leaves the totals unchanged. Another line whose counters 0 and 8 do not parse fails. Any other line adds its counters 0 and 8 to the totals. |
| Network.DevTotalsOfCounters | src/sysmon_tool/collectors/network.py:12-21 | Over lines whose interface names and counters are known, the totals are the sums of counter 0 and counter 8 over the interfaces whose stripped name is not `lo`. |
| Network.DevTotalsIsFold | src/sysmon_tool/collectors/network.py:14-20 | The loop over the lines equals a fold over each line's loopback flag and counters. |
| Network.FoldOfKnown | src/sysmon_tool/collectors/network.py:16-20 | When every line's counters are known, the fold is the pair of sums over the lines not flagged loopback. |
| Network.DevRows | src/sysmon_tool/collectors/network.py:15 | One "name:counters" row per interface, in order. |
| Network.DevTotalsOfRows | src/sysmon_tool/collectors/network.py:14-21 | Over interface rows as the kernel writes them, the totals are the sums of counter 0 (rx) and counter 8 (tx) over every interface whose stripped name is not `lo`. |
| Network.ReadBytesOfDevFile | src/sysmon_tool/collectors/network.py:10-21 | On a whole /proc/net/dev text (two header lines, then one row per interface), `_read_bytes` returns the non-`lo` sums of counters 0 and 8. |
| Network.ReadBytes | src/sysmon_tool/collectors/network.py:10-21 | The accumulating loop returns the sum of the rx and tx counters over every non-`lo` line after the header, or fails. |
| Network.HumanSpeed | src/sysmon_tool/collectors/network.py:24-29 | MB/s iff ≥ 1,000,000, KB/s iff in 1,000..1,000,000, B/s iff < 1,000. The amount times the unit's scale is the rate. |
| Network.HumanSpeedAmount | src/sysmon_tool/collectors/network.py:24-29 | For a non-negative rate, the amount is below 1000 in B/s and KB/s, and at least 1 in KB/s and MB/s. |
| Network.Elapsed | src/sysmon_tool/collectors/network.py:60-62 | dt is always positive: the clock difference when it is positive, 1.0 otherwise. |
| Network.Rates | src/sysmon_tool/collectors/network.py:59-65 | Each direction is shown as `_human_speed` of its byte difference over dt, so its unit follows the B/KB/MB breakpoints of that rate. Its amount times the unit's scale times dt is the byte difference. |
| Network.OneMegabyteInOneSecond | src/sysmon_tool/collectors/network.py:24-29 | 1,000,000 bytes received in one second shows as 1.0 MB/s, and nothing sent as 0.0 B/s. |
| Network.StepFrom | src/sysmon_tool/collectors/network.py:45-77 | Never a percentage. A failed read gives the error sample and keeps `_prev`. The first success gives "measuring..." in dim, and any later success gives the rates in cyan. Every success stores (rx, tx, now). |
| Network.TwoCalls | src/sysmon_tool/collectors/network.py:50-66 | Two successful calls: the first measures. The second shows each direction as `_human_speed` of its byte difference over the elapsed time, so amount times scale times dt is that difference. The stored reading is the latest. |
| Network.NetworkCollector.constructor | src/sysmon_tool/collectors/network.py:33-35 | A new collector has no stored reading. |
| Network.NetworkCollector.Collect | src/sysmon_tool/collectors/network.py:45-77 | The sample and the new `_prev` are `Step(old _prev, file, clock)`. |
| Numeric.Max | src/sysmon_tool/collectors/temperature.py:35 | The maximum is in the list and at least every element. |
| Numeric.Min | src/sysmon_tool/display.py:22 | The minimum is in the list and at most every element. |
| Numeric.Smaller | src/sysmon_tool/collectors/temperature.py:44 | `min(a, b)` is one of the two and at most both. |
| Numeric.Trunc | src/sysmon_tool/display.py:26 | `int()` on a float truncates toward zero. |
| Numeric.FloorDiv | src/sysmon_tool/display.py:43 | `x // d`: q·d ≤ x < (q+1)·d. |
| Numeric.Mod | src/sysmon_tool/display.py:44 | `x % d` is in [0, d) and x = (x // d)·d + x % d. |
| Numeric.NearestTenths | src/sysmon_tool/collectors/cpu.py:39 | The nearest whole number of tenths, with exact ties going to the even one. |
| Numeric.RoundTenths | src/sysmon_tool/collectors/cpu.py:39 | `round(x, 1)` is within 0.05 of x and a whole number of tenths. |
| Numeric.RoundTenthsInRange | src/sysmon_tool/collectors/cpu.py:39 | Rounding a percentage in 0..100 stays in 0..100. |
| Text.SplitLines | src/sysmon_tool/collectors/cpu.py:11 | `splitlines`: no piece holds a line break, and the result is empty iff the text is. |
| Text.SplitJoinLines | src/sysmon_tool/collectors/updates.py:31 | Splitting the text made of break-free lines gives those lines back. |
| Text.WordsAreTokens | src/sysmon_tool/collectors/cpu.py:12 | `split()` yields non-empty words without whitespace. |
| Text.SplitJoinWords | src/sysmon_tool/collectors/cpu.py:12 | Splitting words joined by single spaces gives those words back. |
| Text.Strip | src/sysmon_tool/collectors/temperature.py:26 | The result neither starts nor ends with whitespace, and a space-free string is unchanged. |
| Text.StripPadded | src/sysmon_tool/collectors/temperature.py:26 | Stripping removes exactly the surrounding whitespace. |
| Text.StripIdempotent | src/sysmon_tool/collectors/network.py:16 | Stripping twice is stripping once. |
| Text.Partition | src/sysmon_tool/collectors/network.py:15 | The head holds no separator. With a separator present, the string is head + sep + tail; otherwise the head is the string and the tail is empty. |
| Text.RemoveAll | src/sysmon_tool/collectors/disk.py:29 | `replace(c, "")` leaves no c, and a string without c is unchanged. |
| Text.RemoveAllAppend | src/sysmon_tool/collectors/disk.py:29 | Removal distributes over concatenation. |
| Text.IntToString | src/sysmon_tool/collectors/memory.py:39 | The decimal text of an integer is a non-empty word with no "%". |
| Text.ParseIntToString | src/sysmon_tool/collectors/memory.py:29-30 | `int(str(n)) == n`. |
| Text.ParseIntsDecimals | src/sysmon_tool/collectors/cpu.py:12 | Parsing the decimal texts of a list of integers gives the list back. |
| Text.ParseDecimalOfNat | src/sysmon_tool/display.py:42 | `float()` on the text of a whole number gives that number. |
| Text.LineWords | src/sysmon_tool/collectors/memory.py:28 | `splitlines()[n].split()` succeeds iff there are more than n lines, and then gives line n's words. |
| Text.LineWordsOfTable | src/sysmon_tool/collectors/memory.py:28 | On text made of lines, the words of line n are the words that line was built from. |
| Tracker.Window | src/sysmon_tool/usage_tracker.py:11-12 | The last n elements: min(len, n) of them, as a suffix. |
| Tracker.Push | src/sysmon_tool/usage_tracker.py:11-12 | Appending to a bounded deque stays within n. Below n the value is appended; at n the oldest value is dropped first. |
| Tracker.Series | src/sysmon_tool/usage_tracker.py:14-17 | The stored series of a recorded name, or the empty list for a name never recorded. |
| Tracker.PushAll | src/sysmon_tool/usage_tracker.py:9-12 | Appending values one at a time keeps the series within the bound. |
| Tracker.PushAllWindow | src/sysmon_tool/usage_tracker.py:9-16 | After appending vs to a series, it holds the last n values of everything appended, in the original order. |
| Tracker.RecordFreshName | src/sysmon_tool/usage_tracker.py:9-16 | Recording v1..vk under a new name leaves the last min(k, max_size) values, oldest first. |
| Tracker.UsageTracker.constructor | src/sysmon_tool/usage_tracker.py:4-7 | A new tracker has the given bound and no names. |
| Tracker.UsageTracker.Record | src/sysmon_tool/usage_tracker.py:9-12 | The name's series, created empty if new, gets the value pushed. Other names are untouched, the key set only grows, and every series stays within max_size. |
| Tracker.UsageTracker.GetHistory | src/sysmon_tool/usage_tracker.py:14-17 | The name's series, or the empty list for an unknown name. |
| Tracker.UsageTracker.AllHistory | src/sysmon_tool/usage_tracker.py:19-20 | Exactly the recorded names, each mapped to what `get_history` returns. |
| Tracker.HistoryIsACopy | src/sysmon_tool/usage_tracker.py:14-20 | A history returned before a `record` keeps its contents. This holds by construction, because a series is a `seq` value that nothing can alias; the member records the source's copy promise. The history afterwards is the old one with the value pushed. |
| Display.Tail | src/sysmon_tool/display.py:27 | `values[-width:]` is a suffix of the values, with min(len, width) elements for a positive width. |
| Display.Bucket | src/sysmon_tool/display.py:26 | The glyph index is clamped to 0..4. |
| Display.Glyphs | src/sysmon_tool/display.py:25-27 | One glyph per value of the window. |
| Display.Span | src/sysmon_tool/display.py:22-24 | The scale width is always positive: the range, or 1.0 for a constant series. |
| Display.Sparkline | src/sysmon_tool/display.py:19-28 | The empty series gives "". Otherwise there is one glyph per value of the rendered window. |
| Display.SparklineGlyph | src/sysmon_tool/display.py:22-27 | Glyph i is the bucket of window value i, on the min/span scale of the whole series. |
| Display.SparklineUsesGlyphs | src/sysmon_tool/display.py:16-26 | Every character is one of the five `SPARK_CHARS`. |
| Display.SparklineLength | src/sysmon_tool/display.py:25-27 | For a positive width the sparkline has min(len(values), width) glyphs. |
| Display.SparklineConstant | src/sysmon_tool/display.py:22-26 | A constant series draws the lowest glyph everywhere, with no division by zero. |
| Display.BucketMonotone | src/sysmon_tool/display.py:26 | A larger value never gets a lower glyph. |
| Display.BucketEnds | src/sysmon_tool/display.py:26 | In a non-constant series the minimum maps to the lowest glyph and the maximum to the highest. |
| Display.SparklineScaleIsWholeSeries | src/sysmon_tool/display.py:22-27 | An illustration of `SparklineGlyph` on one input: the scale comes from the whole series. The last value of [0, 10, 5] at width 1 is the middle glyph, but 5 alone is the lowest. |
| Display.ColorGradient | src/sysmon_tool/display.py:31-36 | Green iff pct < warn, yellow iff warn ≤ pct < crit, red otherwise. |
| Display.HoursMinutes | src/sysmon_tool/display.py:43-44 | Minutes are in 0..59, and h·3600 + m·60 ≤ secs < h·3600 + m·60 + 60. |
| Display.UptimeText | src/sysmon_tool/display.py:45-47 | The uptime text is non-empty and ends in "m". |
| Display.Uptime | src/sysmon_tool/display.py:39-49 | "N/A" exactly when the file cannot be read, is empty, or its first word is not a number. Otherwise the text for those seconds. |
| Display.UptimeTextOfWholeSeconds | src/sysmon_tool/display.py:43-44 | For whole seconds n: hours = n div 3600 and minutes = (n mod 3600) div 60. |
| Display.UptimeOfWholeSeconds | src/sysmon_tool/display.py:42-47 | /proc/uptime with whole seconds n shows "Hh Mm" when n div 3600 > 0, else "Mm". |
| Display.UptimeTextIgnoresFraction | src/sysmon_tool/display.py:42-47 | The fraction of a second in /proc/uptime never changes the text: n + f seconds, with 0 ≤ f < 1, shows what n seconds shows. |
| Display.MetricPanel | src/sysmon_tool/display.py:73-102 | Title is icon + two spaces + label. A bar row comes first iff there is a percentage, otherwise a value row. A spark row follows iff the history is non-empty. |
| Display.HistoryFor | src/sysmon_tool/display.py:129 | The history is found iff `label.lower()` is a key, and it is the series stored there. |
| Display.PairUp | src/sysmon_tool/display.py:126-135 | ceil(n/2) pairs: pair k holds panels 2k and 2k+1, and an odd last panel stands alone. |
| Display.Render | src/sysmon_tool/display.py:114-150 | Header row first and footer row last. Between them, grid row k shows panels 2k and 2k+1 in input order, padded with an empty cell at the odd end. |
| Display.LayoutOfIsLayout | src/sysmon_tool/display.py:114-150 | The page built from the inputs (header, the grid rows in order, footer) has the shape `render` promises. |
| Display.LayoutIsUnique | src/sysmon_tool/display.py:114-150 | Only one page has that shape, so the promise of `render` determines its result. |
| Display.LayoutPlacesEveryMetric | src/sysmon_tool/display.py:126-145 | Metric i appears at row i/2 + 1: on the left for even i, on the right for odd i. |
| Monitor.Activated | src/sysmon_tool/main.py:18-24 | Discovery never yields more collectors than it tries. |
| Monitor.ActivatedIff | src/sysmon_tool/main.py:18-24 | A collector is active iff it is listed and `available()` returned True. A False or an exception skips it. |
| Monitor.ActivatedKeepsOrder | src/sysmon_tool/main.py:19-22 | The filter keeps the order of its input. |
| Monitor.ActivatedInRegistryOrder | src/sysmon_tool/main.py:19-22 | Active collectors are in strictly increasing registry order. |
| Monitor.Discover | src/sysmon_tool/main.py:18-24 | The discovery loop yields exactly `Activated(ALL_COLLECTORS)`. |
| Monitor.CollectOne | src/sysmon_tool/main.py:37 | A result carries its collector's label and icon. Only the network collector changes state. Network and update results carry no percentage. |
| Monitor.CollectAll | src/sysmon_tool/main.py:35-38 | One result per active collector. Without a network collector the stored reading is untouched. |
| Monitor.CollectAllResult | src/sysmon_tool/main.py:36-38 | Result i comes from active collector i: its label, its icon, and no percentage for network or updates. |
| Monitor.RecordOne | src/sysmon_tool/main.py:39-40 | A result with a percentage is pushed under `label.lower()`; one without is not recorded. The series stay bounded. |
| Monitor.RecordAll | src/sysmon_tool/main.py:36-40 | Recording a cycle's results keeps every series bounded. |
| Monitor.RecordAllKeys | src/sysmon_tool/main.py:39-40 | After a cycle, the names are the old ones plus the lower-cased labels of the results that carried a percentage. |
| Monitor.RecordAllOthers | src/sysmon_tool/main.py:39-40 | A series that no result of the cycle records is unchanged. |
| Monitor.CycleRecordsOnlyPercentages | src/sysmon_tool/main.py:35-40 | Every new history name is the lower-cased label of an active collector other than network and updates. |
| Monitor.TemperatureHistoryKey | src/sysmon_tool/main.py:40 | Temperature history is keyed "temp" (its label), not "temperature" (its name). |
| Monitor.CollectFrom | src/sysmon_tool/main.py:37 | `collect()` on the live collector matches `CollectOne`, including the network collector's new stored reading. |
| Monitor.RecordResult | src/sysmon_tool/main.py:39-40 | The tracker changes exactly as `RecordOne` says and stays valid. |
| Monitor.CollectCycle | src/sysmon_tool/main.py:35-40 | The loop gives `CollectAll`'s results and network state, and the tracker ends as `RecordAll` of them. |
| Monitor.Cycle | src/sysmon_tool/main.py:35-42 | Render receives the metrics, the history after all of this cycle's records, and the refresh interval; the page is that layout. |
| Monitor.LayoutIsFramed | src/sysmon_tool/main.py:42 | A rendered page has ceil(n/2) + 2 rows, with the header first and the footer last. |
| Monitor.Next | src/sysmon_tool/main.py:35-40 | One cycle from a stored network reading and a history: one result per active collector, and the new history stays bounded. Without a network collector the stored reading is unchanged. |
| Monitor.StateAfter | src/sysmon_tool/main.py:34-44 | The collector state and history after a list of cycles, each one a `Next` from the state the earlier ones left. The history stays bounded. |
| Monitor.Sample | src/sysmon_tool/main.py:34-44 | One page per cycle, and the final history stays bounded. |
| Monitor.SamplePage | src/sysmon_tool/main.py:35-43 | Page c is the page of cycle c from the state the first c cycles left. |
| Monitor.StateAfterStep | src/sysmon_tool/main.py:34-44 | The state after c + 1 cycles is one `Next` from the state after c. |
| Monitor.SamplePagesFramed | src/sysmon_tool/main.py:42 | Every page has the shape `render` promises for its cycle's metrics and history, and so its frame. |
| Monitor.SampleKeys | src/sysmon_tool/main.py:34-40 | However many cycles run, every new history name is the lower-cased label of an active collector other than network and updates. |
| Monitor.CycleScreen | src/sysmon_tool/main.py:35-43 | One pass changes the stored network reading and the tracker exactly as `Next` says, and returns exactly `PageOf` for that state. The tracker stays valid. |
| Monitor.SampleLoop | src/sysmon_tool/main.py:34-44 | The pages shown and the final collector and tracker state are exactly `Sample` of the cycles, from the state they start in. The tracker stays valid. |
| Monitor.Run | src/sysmon_tool/main.py:12-48 | With no active collector: only the "No collectors available." message and no pages. Otherwise: the start message with the count; the pages are exactly `Sample` of the cycles from no stored reading and an empty history, each one framed; then the exit message. |
| Updater.GetUpdateCount | src/sysmon_tool/updater.py:7-19 | The result is ≥ −1. It is −1 iff the tool is missing, the line count on exit 0, and 0 on any other status. Any other exception escapes. |
| Updater.StatusOf | src/sysmon_tool/updater.py:21-29 | −1 gives Error/red/"checkupdates not found". 0 gives "Up to date"/green/"System is fresh". Any other count gives "Updates Available", yellow iff < 20 and red iff ≥ 20, with "{count} packages pending". |
| Updater.GetStatus | src/sysmon_tool/updater.py:21-22 | The status of the current count; it raises iff the count raised. |
| Updater.ErrorOnlyWhenMissing | src/sysmon_tool/updater.py:17-24 | The status is "Error" exactly when `checkupdates` is missing. |
| Updater.StatusOfPackageList | src/sysmon_tool/updater.py:12-29 | With one package per line, the message counts the packages listed. |
| SystemMonitor.GetDiskUsage | src/sysmon_tool/system_monitor.py:17-28 | Error in red iff `df` failed (`check=True`) or did not parse. Otherwise "{pct}%", graded 80/95. |
| SystemMonitor.GetMemoryUsage | src/sysmon_tool/system_monitor.py:30-42 | Error in red iff the tool did not run, did not parse, or the total is 0. Otherwise pct to one decimal, graded 70/90, whatever the exit status. |
| SystemMonitor.GenerateDashboard | src/sysmon_tool/system_monitor.py:44-54 | Panels Disk, Memory, Updates in that order, each with its status's colour and value. It raises iff the package status raised. |
| SystemMonitor.DiskUsageOfDfOutput | src/sysmon_tool/system_monitor.py:19-25 | On `df`-shaped output the status shows the row's "NN%". |
| SystemMonitor.DiskAgreesWithCollector | src/sysmon_tool/system_monitor.py:24-25 | The fixed 80/95 colours equal the disk collector's under the default configuration. |
| SystemMonitor.MemoryAgreesWithCollector | src/sysmon_tool/system_monitor.py:38-39 | The fixed 70/90 colours equal the memory collector's under the default configuration. |
| SystemMonitor.MemoryIgnoresExitStatus | src/sysmon_tool/system_monitor.py:33 | The older memory getter does not depend on the exit status of `free`. |

## Left out

- Rich renderables, styles and markup (`Panel`, `Table`, `Bar`, `Text`, `Live`, `Console`): the page is the `LayoutRow` datatype, which keeps what each renderable shows. Console markup strings are kept as text.
- Float formatting (`f"{x}"`, `:.0f`, `:.1f`) and IEEE binary floating point: formatted floats are kept as the number plus its format (`Value.Number`, `Speed`). Arithmetic is on exact reals, so binary rounding effects are not modelled.
- Reads of /proc, /sys and /proc/uptime, the `df`, `free` and `checkupdates` runs, `time.sleep`, `time.monotonic`, `datetime.now`, `platform.node` and `platform.release` are inputs, not calls. The 0.1 s pause between the CPU reads is the gap between the two inputs.
- The `while True` loop and `KeyboardInterrupt`: `Monitor.Run` runs a given finite list of cycles and then prints the exit message, which is what an interrupt after those cycles produces.
- `SystemMonitor.run_live`: UI-only refresh loop around `generate_dashboard`; the older dashboard's exit message is not modelled.
- `Text.Lower`: lower-cases ASCII letters only. The labels are ASCII, so nothing else occurs as a history key.
- `Text.ParseInt`: parses a whitespace-free token (optional sign, decimal digits). Python's `int()` also accepts underscores, non-ASCII digits and surrounding whitespace, but every call site passes a `split()` token, a stripped text or a text without spaces.
- `Text.ParseDecimal`: accepts sign, digits and one decimal point. Exponents, `inf` and `nan` are not modelled.
- `Temperature.Reading`: the percentage is clamped only above (`min(max_temp, 100)`), as the code does. A negative reading gives a negative percentage, so no lower bound is stated.
- `Memory.Available`, `Disk.Available`: a timed-out run is an escaping exception, because the code passes no timeout and catches only `FileNotFoundError` and `CalledProcessError`.
- `Updater.GetUpdateCount`: no timeout is passed, so `TimedOut` is treated like any other uncaught exception.
- `Tracker.UsageTracker`: the bound is a `nat`. A negative `max_size`, which makes `deque` raise, is not modelled; the program always passes 20.
- Collector constructors only store the configuration and cannot raise, so the constructor half of discovery's `try` never fires.
- `network_thresholds` from the configuration is never read by the network collector. `Network.StepFrom` takes no configuration.
- `PackageUpdater.distro` is stored but never used, so it is not modelled.
