/** `main`: collector discovery, then sampling cycles, each collecting from every active
    collector, recording the percentages into the history tracker and rendering the page. */
module Monitor {
  import opened Env
  import opened Text
  import opened Collector
  import opened Config
  import opened Registry
  import opened Tracker
  import opened Display
  import Disk
  import Memory
  import Cpu
  import Network
  import Temperature
  import Updates

  // ---------------------------------------------------------------------------------------
  // Discovery

  /** What each collector's `available()` looks at. */
  datatype Probes = Probes(
    statExists: bool,           // /proc/stat exists
    devExists: bool,            // /proc/net/dev exists
    df: ProcOutcome,            // running `df -h /`
    free: ProcOutcome,          // running `free -m`
    zones: seq<Temperature.Zone>,
    checkupdates: ProcOutcome)  // running `checkupdates`

  /** `cls.available()` for the variant `k`. */
  function Probe(k: Kind, probes: Probes): Outcome<bool>
  {
    match k
    case Disk => Disk.Available(probes.df)
    case Memory => Memory.Available(probes.free)
    case Cpu => Cpu.Available(probes.statExists)
    case Network => Network.Available(probes.devExists)
    case Temperature => Returned(Temperature.Available(probes.zones))
    case Updates => Updates.Available(probes.checkupdates)
  }

  /** The variants of `ks` whose `available()` returned `True`, in order; one that returned
      `False` or raised is skipped. (Constructing a collector only stores the configuration
      and cannot raise.) */
  function Activated(ks: seq<Kind>, probes: Probes): (a: seq<Kind>)
    ensures |a| <= |ks|
  {
    if ks == [] then []
    else
      var a := Activated(ks[..|ks| - 1], probes);
      if Probe(ks[|ks| - 1], probes) == Returned(true) then a + [ks[|ks| - 1]] else a
  }

  /** A variant is activated exactly when it is listed and its probe returned `True`. */
  lemma {:induction false} ActivatedIff(ks: seq<Kind>, probes: Probes, k: Kind)
    ensures k in Activated(ks, probes) <==> k in ks && Probe(k, probes) == Returned(true)
  {
    if ks != [] {
      var init := ks[..|ks| - 1];
      ActivatedIff(init, probes, k);
      assert ks == init + [ks[|ks| - 1]];
    }
  }

  /** Filtering keeps order: if positions increase along `ks`, they increase along the
      activated variants too. */
  lemma {:induction false} ActivatedKeepsOrder(ks: seq<Kind>, probes: Probes)
    requires forall i, j :: 0 <= i < j < |ks| ==> Position(ks[i]) < Position(ks[j])
    ensures forall i :: 0 <= i < |Activated(ks, probes)| ==> Activated(ks, probes)[i] in ks
    ensures forall i, j :: 0 <= i < j < |Activated(ks, probes)| ==>
      Position(Activated(ks, probes)[i]) < Position(Activated(ks, probes)[j])
  {
    if ks != [] {
      var init := ks[..|ks| - 1];
      var last := ks[|ks| - 1];
      ActivatedKeepsOrder(init, probes);
      var prev := Activated(init, probes);
      var a := Activated(ks, probes);
      forall x | x in init ensures Position(x) < Position(last) {
        var k :| 0 <= k < |init| && init[k] == x;
        assert ks[k] == x;
      }
      if Probe(last, probes) == Returned(true) {
        assert a == prev + [last];
        forall i | 0 <= i < |a| ensures a[i] in ks {
          if i < |prev| { assert a[i] == prev[i]; }
        }
        forall i, j | 0 <= i < j < |a| ensures Position(a[i]) < Position(a[j]) {
          assert a[i] == prev[i];
          if j < |prev| { assert a[j] == prev[j]; }
        }
      } else {
        assert a == prev;
      }
    }
  }

  /** Discovery keeps the registry order: the activated variants appear in strictly
      increasing position. */
  lemma ActivatedInRegistryOrder(probes: Probes)
    ensures var a := Activated(AllCollectors(), probes);
      forall i, j :: 0 <= i < j < |a| ==> Position(a[i]) < Position(a[j])
  {
    var all := AllCollectors();
    forall i | 0 <= i < |all| ensures Position(all[i]) == i {
      assert all[Position(all[i])] == all[i];
    }
    ActivatedKeepsOrder(all, probes);
  }

  /** The discovery loop: every variant in `ALL_COLLECTORS` order whose `available()`
      returned `True` is instantiated. */
  method Discover(probes: Probes) returns (active: seq<Kind>)
    ensures active == Activated(AllCollectors(), probes)
  {
    var all := AllCollectors();
    active := [];
    var i := 0;
    while i < |all|
      invariant 0 <= i <= |all|
      invariant active == Activated(all[..i], probes)
    {
      assert all[..i + 1][..i] == all[..i];
      match Probe(all[i], probes) {
        case Returned(true) => active := active + [all[i]];
        case _ =>
      }
      i := i + 1;
    }
    assert all[..i] == all;
  }

  // ---------------------------------------------------------------------------------------
  // One cycle

  /** What the collectors read during one cycle, in the order they read it. */
  datatype Readings = Readings(
    statBefore: Option<string>,   // /proc/stat before the CPU collector's pause
    statAfter: Option<string>,    // /proc/stat after it
    dev: Option<string>,          // /proc/net/dev
    now: real,                    // the monotonic clock when the network collector runs
    free: ProcOutcome,
    df: ProcOutcome,
    zones: seq<Temperature.Zone>,
    checkupdates: ProcOutcome,
    host: HostInfo,               // what the header shows
    clock: string)                // the wall-clock time in the footer

  /** `collector.collect()` for the variant `k`, with the network collector's saved reading
      before and after; every other collector keeps no state. */
  function CollectOne(k: Kind, rd: Readings, config: MonitorConfig, prev: Option<Network.Snapshot>)
    : (r: (MetricResult, Option<Network.Snapshot>))
    ensures r.0.caption == Label(k) && r.0.icon == Icon(k)
    ensures k != Kind.Network ==> r.1 == prev
    ensures k == Kind.Network || k == Kind.Updates ==> r.0.percentage == None
  {
    match k
    case Disk => (Disk.Collect(rd.df, config), prev)
    case Memory => (Memory.Collect(rd.free, config), prev)
    case Cpu => (Cpu.Collect(rd.statBefore, rd.statAfter, config), prev)
    case Network => Network.Step(prev, rd.dev, rd.now)
    case Temperature => (Temperature.Reading(rd.zones, config), prev)
    case Updates => (Updates.Collect(rd.checkupdates, config), prev)
  }

  /** The results of one cycle over `active`, with the network collector's state threaded
      through: one result per active collector, in active order. */
  function CollectAll(active: seq<Kind>, rd: Readings, config: MonitorConfig, prev: Option<Network.Snapshot>)
    : (r: (seq<MetricResult>, Option<Network.Snapshot>))
    ensures |r.0| == |active|
    ensures Kind.Network !in active ==> r.1 == prev
  {
    if active == [] then ([], prev)
    else
      var init := CollectAll(active[..|active| - 1], rd, config, prev);
      var last := CollectOne(active[|active| - 1], rd, config, init.1);
      assert Kind.Network !in active ==> Kind.Network !in active[..|active| - 1];
      (init.0 + [last.0], last.1)
  }

  /** Result `i` of a cycle comes from active collector `i`: it carries that collector's
      label and icon, and no percentage when the collector is the network or the updates
      one. */
  lemma {:induction false} CollectAllResult(active: seq<Kind>, rd: Readings, config: MonitorConfig,
                                            prev: Option<Network.Snapshot>, i: nat)
    requires i < |active|
    ensures var m := CollectAll(active, rd, config, prev).0[i];
      && m.caption == Label(active[i]) && m.icon == Icon(active[i])
      && (active[i] == Kind.Network || active[i] == Kind.Updates ==> m.percentage == None)
  {
    var ks := active[..|active| - 1];
    var init := CollectAll(ks, rd, config, prev);
    var last := CollectOne(active[|active| - 1], rd, config, init.1);
    assert CollectAll(active, rd, config, prev).0 == init.0 + [last.0];
    if i < |ks| {
      CollectAllResult(ks, rd, config, prev, i);
      assert ks[i] == active[i];
      assert (init.0 + [last.0])[i] == init.0[i];
    }
  }

  /** Every series is within the bound. */
  predicate Bounded(data: map<string, seq<real>>, n: nat)
  {
    forall k :: k in data ==> |data[k]| <= n
  }

  /** The history after `record(label.lower(), percentage)` for a result that carries a
      percentage; a result without one is not recorded. */
  function RecordOne(data: map<string, seq<real>>, m: MetricResult, n: nat): (d: map<string, seq<real>>)
    requires Bounded(data, n)
    ensures Bounded(d, n)
    ensures m.percentage.None? ==> d == data
    ensures m.percentage.Some? ==>
      d == data[Lower(m.caption) := Push(Series(data, Lower(m.caption)), m.percentage.value, n)]
  {
    if m.percentage.Some? then
      var key := Lower(m.caption);
      var series := Series(data, key);
      assert |series| <= n;
      var d := data[key := Push(series, m.percentage.value, n)];
      assert forall k :: k in d ==> |d[k]| <= n by {
        forall k | k in d ensures |d[k]| <= n {
          if k != key { assert d[k] == data[k]; }
        }
      }
      d
    else data
  }

  /** The history after recording a cycle's results in order. */
  function RecordAll(data: map<string, seq<real>>, ms: seq<MetricResult>, n: nat): (d: map<string, seq<real>>)
    requires Bounded(data, n)
    ensures Bounded(d, n)
  {
    if ms == [] then data else RecordOne(RecordAll(data, ms[..|ms| - 1], n), ms[|ms| - 1], n)
  }

  /** The names in the history after a cycle are the names before it and the lower-cased
      labels of the results that carried a percentage. */
  lemma {:induction false} RecordAllKeys(data: map<string, seq<real>>, ms: seq<MetricResult>, n: nat, key: string)
    requires Bounded(data, n)
    ensures key in RecordAll(data, ms, n) <==>
      key in data || exists i :: 0 <= i < |ms| && ms[i].percentage.Some? && Lower(ms[i].caption) == key
  {
    if ms != [] {
      var init := ms[..|ms| - 1];
      RecordAllKeys(data, init, n, key);
      assert forall i :: 0 <= i < |init| ==> init[i] == ms[i];
      var last := ms[|ms| - 1];
      if key in RecordAll(data, ms, n) && key !in data && !(last.percentage.Some? && Lower(last.caption) == key) {
        var i :| 0 <= i < |init| && init[i].percentage.Some? && Lower(init[i].caption) == key;
        assert ms[i] == init[i];
      }
    }
  }

  /** A series whose name no result of the cycle records is left as it was. */
  lemma {:induction false} RecordAllOthers(data: map<string, seq<real>>, ms: seq<MetricResult>, n: nat, key: string)
    requires Bounded(data, n)
    requires forall i :: 0 <= i < |ms| && ms[i].percentage.Some? ==> Lower(ms[i].caption) != key
    ensures Series(RecordAll(data, ms, n), key) == Series(data, key)
  {
    if ms != [] {
      var init := ms[..|ms| - 1];
      var last := ms[|ms| - 1];
      assert forall i :: 0 <= i < |init| ==> init[i] == ms[i];
      RecordAllOthers(data, init, n, key);
      var d := RecordAll(data, init, n);
      assert RecordAll(data, ms, n) == RecordOne(d, last, n);
      if last.percentage.Some? {
        SeriesOfOtherKey(d, Lower(last.caption), Push(Series(d, Lower(last.caption)), last.percentage.value, n), key);
      }
    }
  }

  lemma SeriesOfOtherKey(d: map<string, seq<real>>, k: string, v: seq<real>, key: string)
    requires k != key
    ensures Series(d[k := v], key) == Series(d, key)
  {
  }

  /** Network and update samples never reach the history: after a cycle, every new name is
      the lower-cased label of an active collector other than those two. */
  lemma CycleRecordsOnlyPercentages(data: map<string, seq<real>>, active: seq<Kind>, rd: Readings,
                                    config: MonitorConfig, prev: Option<Network.Snapshot>, n: nat, key: string)
    requires Bounded(data, n)
    requires key in RecordAll(data, CollectAll(active, rd, config, prev).0, n) && key !in data
    ensures exists i :: 0 <= i < |active| && active[i] != Kind.Network && active[i] != Kind.Updates
                        && key == Lower(Label(active[i]))
  {
    var ms := CollectAll(active, rd, config, prev).0;
    RecordAllKeys(data, ms, n, key);
    var i :| 0 <= i < |ms| && ms[i].percentage.Some? && Lower(ms[i].caption) == key;
    CollectAllResult(active, rd, config, prev, i);
  }

  /** The temperature history is kept under "temp", its lower-cased label, not under its
      name "temperature". */
  lemma TemperatureHistoryKey()
    ensures Lower(Label(Kind.Temperature)) == "temp" && Name(Kind.Temperature) == "temperature"
  {
  }

  /** `collector.collect()` on the live collector: the network collector updates its saved
      reading; the temperature collector runs its loop over the zones. */
  method CollectFrom(k: Kind, rd: Readings, config: MonitorConfig, net: Network.NetworkCollector)
    returns (result: MetricResult)
    modifies net
    ensures (result, net.prev) == CollectOne(k, rd, config, old(net.prev))
  {
    if k == Kind.Network {
      result := net.Collect(rd.dev, rd.now);
    } else if k == Kind.Temperature {
      result := Temperature.Collect(rd.zones, config);
    } else {
      result := CollectOne(k, rd, config, net.prev).0;
    }
  }

  /** `tracker.record(...)` for one result, when it carries a percentage. */
  method RecordResult(tracker: UsageTracker, result: MetricResult)
    requires tracker.Valid()
    modifies tracker
    ensures tracker.Valid()
    ensures tracker.data == RecordOne(old(tracker.data), result, tracker.maxSize)
  {
    if result.percentage.Some? {
      tracker.Record(Lower(result.caption), result.percentage.value);
    }
  }

  /** The collecting part of a cycle: one result per active collector, in order, each
      recorded as it arrives. */
  method CollectCycle(active: seq<Kind>, rd: Readings, config: MonitorConfig, net: Network.NetworkCollector, tracker: UsageTracker)
    returns (metrics: seq<MetricResult>)
    requires tracker.Valid()
    modifies net, tracker
    ensures tracker.Valid()
    ensures (metrics, net.prev) == CollectAll(active, rd, config, old(net.prev))
    ensures tracker.data == RecordAll(old(tracker.data), metrics, tracker.maxSize)
  {
    metrics := [];
    var i := 0;
    while i < |active|
      invariant 0 <= i <= |active|
      invariant tracker.Valid()
      invariant (metrics, net.prev) == CollectAll(active[..i], rd, config, old(net.prev))
      invariant tracker.data == RecordAll(old(tracker.data), metrics, tracker.maxSize)
    {
      assert active[..i + 1][..i] == active[..i];
      var result := CollectFrom(active[i], rd, config, net);
      RecordResult(tracker, result);
      metrics := metrics + [result];
      assert metrics[..|metrics| - 1] == metrics[..i];
      i := i + 1;
    }
    assert active[..i] == active;
  }

  /** One pass of the sampling loop: collect from every active collector in order, record
      each percentage under the lower-cased label, then render the results with the history
      as it stands after this cycle's records and the refresh interval. */
  method Cycle(active: seq<Kind>, rd: Readings, config: MonitorConfig, net: Network.NetworkCollector, tracker: UsageTracker)
    returns (metrics: seq<MetricResult>, layout: seq<LayoutRow>)
    requires tracker.Valid()
    modifies net, tracker
    ensures tracker.Valid()
    ensures (metrics, net.prev) == CollectAll(active, rd, config, old(net.prev))
    ensures tracker.data == RecordAll(old(tracker.data), metrics, tracker.maxSize)
    ensures IsLayout(layout, metrics, tracker.data, config.refreshInterval, HeaderOf(rd.host), rd.clock)
  {
    metrics := CollectCycle(active, rd, config, net, tracker);
    var history := tracker.AllHistory();
    assert history == tracker.data;
    layout := Render(metrics, history, config.refreshInterval, rd.host, rd.clock);
  }

  // ---------------------------------------------------------------------------------------
  // The program

  /** The page of a cycle over `n` collectors: its height, the header showing the cycle's
      host information and the footer showing the interval and the cycle's clock. */
  predicate Framed(screen: seq<LayoutRow>, n: nat, interval: real, rd: Readings)
  {
    && |screen| == (n + 1) / 2 + 2
    && screen[0] == HeaderRow(HeaderOf(rd.host))
    && screen[|screen| - 1] == FooterRow(Footer(interval, rd.clock))
  }

  lemma LayoutIsFramed(layout: seq<LayoutRow>, metrics: seq<MetricResult>, history: map<string, seq<real>>,
                       interval: real, rd: Readings)
    requires IsLayout(layout, metrics, history, interval, HeaderOf(rd.host), rd.clock)
    ensures Framed(layout, |metrics|, interval, rd)
  {
  }

  /** The console messages, with their Rich markup. */
  const NoCollectorsMessage: string := "[bold red]No collectors available.[/]"
  const ExitMessage: string := "\n[bold yellow]Exiting Monitor...[/]"

  function StartMessage(n: nat): string
  {
    "[dim]Starting with " + NatToString(n) + " collectors...[/]"
  }

  /** What the program carries from one cycle to the next: the network collector's saved
      reading and the tracker's history. */
  datatype State = State(prev: Option<Network.Snapshot>, history: map<string, seq<real>>)

  /** One cycle on a state: the cycle's results, and the state after collecting them and
      recording their percentages with the bound `n`. */
  function Next(active: seq<Kind>, rd: Readings, config: MonitorConfig, s: State, n: nat)
    : (r: (seq<MetricResult>, State))
    requires Bounded(s.history, n)
    ensures |r.0| == |active| && Bounded(r.1.history, n)
    ensures Kind.Network !in active ==> r.1.prev == s.prev
  {
    var (ms, p) := CollectAll(active, rd, config, s.prev);
    (ms, State(p, RecordAll(s.history, ms, n)))
  }

  /** The page a cycle with readings `rd` shows from state `s`: its results beside the
      history as it stands once they are recorded. */
  function PageOf(active: seq<Kind>, rd: Readings, config: MonitorConfig, s: State, n: nat): seq<LayoutRow>
    requires Bounded(s.history, n)
  {
    var (ms, after) := Next(active, rd, config, s, n);
    LayoutOf(ms, after.history, config.refreshInterval, HeaderOf(rd.host), rd.clock)
  }

  /** The state after the cycles `cycles`, in order, from `s`. */
  function StateAfter(active: seq<Kind>, cycles: seq<Readings>, config: MonitorConfig, s: State, n: nat)
    : (r: State)
    requires Bounded(s.history, n)
    ensures Bounded(r.history, n)
    ensures Kind.Network !in active ==> r.prev == s.prev
  {
    if cycles == [] then s
    else Next(active, cycles[|cycles| - 1], config, StateAfter(active, cycles[..|cycles| - 1], config, s, n), n).1
  }

  /** The cycles `cycles`, in order, from state `s`: the page each one shows, from the state
      the cycles before it left, and the state the last one leaves. */
  function Sample(active: seq<Kind>, cycles: seq<Readings>, config: MonitorConfig, s: State, n: nat)
    : (r: (seq<seq<LayoutRow>>, State))
    requires Bounded(s.history, n)
    ensures |r.0| == |cycles| && Bounded(r.1.history, n)
  {
    (seq(|cycles|, c requires 0 <= c < |cycles| => PageOf(active, cycles[c], config, StateAfter(active, cycles[..c], config, s, n), n)),
     StateAfter(active, cycles, config, s, n))
  }

  /** The state after the first `c + 1` cycles is one more cycle from the state after the
      first `c`. */
  lemma StateAfterStep(active: seq<Kind>, cycles: seq<Readings>, config: MonitorConfig, s: State, n: nat, c: nat)
    requires Bounded(s.history, n) && c < |cycles|
    ensures StateAfter(active, cycles[..c + 1], config, s, n)
      == Next(active, cycles[c], config, StateAfter(active, cycles[..c], config, s, n), n).1
  {
    assert cycles[..c + 1][..c] == cycles[..c];
  }

  /** Page `c` is the page of cycle `c` from the state the cycles before it left. */
  lemma SamplePage(active: seq<Kind>, cycles: seq<Readings>, config: MonitorConfig, s: State, n: nat, c: nat)
    requires Bounded(s.history, n) && c < |cycles|
    ensures Sample(active, cycles, config, s, n).0[c]
      == PageOf(active, cycles[c], config, StateAfter(active, cycles[..c], config, s, n), n)
  {
  }

  /** The first `c + 1` elements are the first `c` and then element `c`. */
  lemma PrefixExtend<T>(xs: seq<T>, c: nat)
    requires c < |xs|
    ensures xs[..c + 1] == xs[..c] + [xs[c]]
  {
  }

  /** Every page has the shape `render` promises for its cycle, so the frame of that cycle:
      its height, its header and its footer. */
  lemma SamplePagesFramed(active: seq<Kind>, cycles: seq<Readings>, config: MonitorConfig, s: State, n: nat, c: nat)
    requires Bounded(s.history, n) && c < |cycles|
    ensures var (ms, after) := Next(active, cycles[c], config, StateAfter(active, cycles[..c], config, s, n), n);
      IsLayout(Sample(active, cycles, config, s, n).0[c], ms, after.history, config.refreshInterval,
               HeaderOf(cycles[c].host), cycles[c].clock)
    ensures Framed(Sample(active, cycles, config, s, n).0[c], |active|, config.refreshInterval, cycles[c])
  {
    var (ms, after) := Next(active, cycles[c], config, StateAfter(active, cycles[..c], config, s, n), n);
    var page := Sample(active, cycles, config, s, n).0[c];
    LayoutOfIsLayout(ms, after.history, config.refreshInterval, HeaderOf(cycles[c].host), cycles[c].clock);
    LayoutIsFramed(page, ms, after.history, config.refreshInterval, cycles[c]);
  }

  /** However many cycles run, the history holds only the names it started with and the
      lower-cased labels of active collectors other than the network and updates ones. */
  lemma {:induction false} SampleKeys(active: seq<Kind>, cycles: seq<Readings>, config: MonitorConfig,
                                      s: State, n: nat, key: string)
    requires Bounded(s.history, n)
    requires key in StateAfter(active, cycles, config, s, n).history && key !in s.history
    ensures exists i :: 0 <= i < |active| && active[i] != Kind.Network && active[i] != Kind.Updates
                        && key == Lower(Label(active[i]))
  {
    var init := cycles[..|cycles| - 1];
    var before := StateAfter(active, init, config, s, n);
    if key in before.history {
      SampleKeys(active, init, config, s, n, key);
    } else {
      CycleRecordsOnlyPercentages(before.history, active, cycles[|cycles| - 1], config, before.prev, n, key);
    }
  }

  /** The page one cycle shows, and the new state of the collector and the tracker. */
  method CycleScreen(active: seq<Kind>, rd: Readings, config: MonitorConfig,
                     net: Network.NetworkCollector, tracker: UsageTracker) returns (layout: seq<LayoutRow>)
    requires tracker.Valid()
    modifies net, tracker
    ensures tracker.Valid()
    ensures State(net.prev, tracker.data)
      == Next(active, rd, config, State(old(net.prev), old(tracker.data)), tracker.maxSize).1
    ensures layout == PageOf(active, rd, config, State(old(net.prev), old(tracker.data)), tracker.maxSize)
  {
    var metrics;
    metrics, layout := Cycle(active, rd, config, net, tracker);
    LayoutIsUnique(layout, metrics, tracker.data, config.refreshInterval, HeaderOf(rd.host), rd.clock);
  }

  /** The body of `while True`, run once per element of `cycles`: the pages and the final
      state are those of `Sample`, from the state the collector and the tracker start in. */
  method SampleLoop(active: seq<Kind>, cycles: seq<Readings>, config: MonitorConfig,
                net: Network.NetworkCollector, tracker: UsageTracker) returns (screens: seq<seq<LayoutRow>>)
    requires tracker.Valid()
    modifies net, tracker
    ensures tracker.Valid()
    ensures (screens, State(net.prev, tracker.data))
      == Sample(active, cycles, config, State(old(net.prev), old(tracker.data)), tracker.maxSize)
  {
    ghost var s0 := State(net.prev, tracker.data);
    ghost var n := tracker.maxSize;
    ghost var pages := Sample(active, cycles, config, s0, n).0;
    screens := [];
    var c := 0;
    while c < |cycles|
      invariant 0 <= c <= |cycles|
      invariant tracker.Valid() && tracker.maxSize == n && Bounded(s0.history, n)
      invariant State(net.prev, tracker.data) == StateAfter(active, cycles[..c], config, s0, n)
      invariant |screens| == c
      invariant screens == pages[..c]
    {
      ghost var before := State(net.prev, tracker.data);
      SamplePage(active, cycles, config, s0, n, c);
      PrefixExtend(pages, c);
      StateAfterStep(active, cycles, config, s0, n, c);
      var layout := CycleScreen(active, cycles[c], config, net, tracker);
      assert layout == PageOf(active, cycles[c], config, before, n);
      screens := screens + [layout];
      c := c + 1;
    }
    assert cycles[..c] == cycles && pages[..c] == pages;
  }

  /** `main`, with the interrupt arriving after `cycles` passes of the loop: the console
      messages in order, and the pages of `Sample` from no saved reading and an empty
      history. With no active collector the program stops after its message and never
      samples. */
  method Run(probes: Probes, cycles: seq<Readings>) returns (messages: seq<string>, screens: seq<seq<LayoutRow>>)
    ensures var active := Activated(AllCollectors(), probes);
      && (active == [] ==> messages == [NoCollectorsMessage] && screens == [])
      && (active != [] ==>
            && messages == [StartMessage(|active|), ExitMessage]
            && screens == Sample(active, cycles, DefaultConfig(), State(None, map[]), DefaultConfig().historySize).0
            && forall c :: 0 <= c < |cycles| ==> Framed(screens[c], |active|, DefaultConfig().refreshInterval, cycles[c]))
  {
    var config := DefaultConfig();
    var tracker := new UsageTracker(config.historySize);
    var active := Discover(probes);
    var net := new Network.NetworkCollector();
    if active == [] {
      messages := [NoCollectorsMessage];
      screens := [];
      return;
    }
    messages := [StartMessage(|active|)];
    screens := SampleLoop(active, cycles, config, net, tracker);
    messages := messages + [ExitMessage];
    forall c | 0 <= c < |cycles| ensures Framed(screens[c], |active|, config.refreshInterval, cycles[c]) {
      SamplePagesFramed(active, cycles, config, State(None, map[]), config.historySize, c);
    }
  }
}
