/** `TemperatureCollector`: the hottest thermal zone, from the millidegree readings under
    /sys/class/thermal. */
module Temperature {
  import opened Env
  import opened Text
  import opened Numeric
  import opened Collector
  import opened Config

  /** One `thermal_zone*` entry, in sorted order: it has no `temp` file, or it has one whose
      read gives the text (`None`: the read raised). */
  datatype Zone = NoTempFile | TempFile(contents: Option<string>)

  /** `int(raw.strip()) / 1000.0`: a reading in degrees Celsius. */
  function ZoneCelsius(raw: string): (r: Option<real>)
  {
    Degrees(ParseInt(Strip(raw)))
  }

  function Degrees(millidegrees: Option<int>): (r: Option<real>)
  {
    if millidegrees.None? then None else Some(millidegrees.value as real / 1000.0)
  }

  /** The readings of every zone that has a `temp` file, in zone order; `None` when a read or
      a parse raised. */
  function Readings(zones: seq<Zone>): (r: Option<seq<real>>)
    ensures r.Some? ==> |r.value| <= |zones|
  {
    if zones == [] then Some([])
    else
      var init := Readings(zones[..|zones| - 1]);
      var last := zones[|zones| - 1];
      if init.None? then None
      else if last.NoTempFile? then init
      else if last.contents.None? then None
      else
        var t := ZoneCelsius(last.contents.value);
        if t.None? then None else Some(init.value + [t.value])
  }

  /** A zone set yields no readings exactly when no zone has a `temp` file. */
  lemma {:induction false} ReadingsEmpty(zones: seq<Zone>)
    requires Readings(zones).Some?
    ensures Readings(zones).value == [] <==> forall i :: 0 <= i < |zones| ==> zones[i].NoTempFile?
  {
    if zones != [] {
      var init := zones[..|zones| - 1];
      ReadingsEmpty(init);
      assert forall i :: 0 <= i < |init| ==> init[i] == zones[i];
    }
  }

  /** What `collect` promises, given the readings. */
  function Reading(zones: seq<Zone>, config: MonitorConfig): (r: MetricResult)
    ensures r.caption == Label(Temperature) && r.icon == Icon(Temperature)
    ensures r == ErrorSample(Temperature) <==> Readings(zones).None?
    ensures Readings(zones) == Some([]) ==>
      r.value == Plain("N/A") && r.color == Dim && r.percentage == None
    ensures Readings(zones).Some? && Readings(zones).value != [] ==>
      var hottest := Max(Readings(zones).value);
      && r.value == Number(hottest, Fixed(0), "°C")
      && r.color == Grade(hottest, config.temp.warn, config.temp.crit)
      && r.percentage == Some(Smaller(hottest, 100.0))
      && r.unit == "°C"
  {
    match Readings(zones)
    case None => ErrorSample(Temperature)
    case Some(temps) =>
      if temps == [] then Sample(Label(Temperature), Plain("N/A"), Icon(Temperature), Dim)
      else
        var hottest := Max(temps);
        MetricResult(Label(Temperature), Number(hottest, Fixed(0), "°C"), Icon(Temperature),
          Grade(hottest, config.temp.warn, config.temp.crit), Some(Smaller(hottest, 100.0)), "°C")
  }

  /** The percentage is the hottest reading clamped at 100: never above 100, and equal to the
      reading whenever that is at most 100. The colour is graded on the unclamped reading. */
  lemma ReadingClamped(zones: seq<Zone>, config: MonitorConfig)
    requires Readings(zones).Some? && Readings(zones).value != []
    ensures var r := Reading(zones, config);
      var temps := Readings(zones).value;
      && r.percentage.Some? && r.percentage.value <= 100.0
      && r.percentage.value in temps + [100.0]
      && (forall i :: 0 <= i < |temps| ==> temps[i] <= 100.0 ==> r.percentage.value >= temps[i])
      && (Max(temps) <= 100.0 ==> r.percentage.value == Max(temps))
  {
  }

  /** `TemperatureCollector.collect` over the sorted zone entries: the readings are gathered
      one zone at a time, and the first failure ends the collection with the error sample. */
  method Collect(zones: seq<Zone>, config: MonitorConfig) returns (r: MetricResult)
    ensures r == Reading(zones, config)
  {
    var temps: seq<real> := [];
    var i := 0;
    while i < |zones|
      invariant 0 <= i <= |zones|
      invariant Readings(zones[..i]) == Some(temps)
    {
      assert zones[..i + 1][..i] == zones[..i];
      match zones[i] {
        case NoTempFile =>
        case TempFile(contents) =>
          if contents.None? {
            FailureIsFinal(zones, i + 1);
            return ErrorSample(Temperature);
          }
          var t := ZoneCelsius(contents.value);
          if t.None? {
            FailureIsFinal(zones, i + 1);
            return ErrorSample(Temperature);
          }
          temps := temps + [t.value];
      }
      i := i + 1;
    }
    assert zones[..i] == zones;
    if temps == [] {
      return Sample(Label(Temperature), Plain("N/A"), Icon(Temperature), Dim);
    }
    var hottest := Max(temps);
    r := MetricResult(Label(Temperature), Number(hottest, Fixed(0), "°C"), Icon(Temperature),
      Grade(hottest, config.temp.warn, config.temp.crit), Some(Smaller(hottest, 100.0)), "°C");
  }

  /** Once a prefix of the zones fails, so do all the zones. */
  lemma {:induction false} FailureIsFinal(zones: seq<Zone>, k: nat)
    requires k <= |zones| && Readings(zones[..k]).None?
    ensures Readings(zones).None?
    decreases |zones| - k
  {
    if k < |zones| {
      assert zones[..k + 1][..k] == zones[..k];
      FailureIsFinal(zones, k + 1);
    } else {
      assert zones[..k] == zones;
    }
  }

  /** A `temp` file holding a millidegree count (with its trailing newline) reads as that count
      in degrees. */
  lemma ZoneCelsiusOfCount(millidegrees: int)
    ensures ZoneCelsius(IntToString(millidegrees) + "\n") == Some(millidegrees as real / 1000.0)
  {
    var w := IntToString(millidegrees);
    assert "" + w + "\n" == w + "\n";
    StripPadded("", w, "\n");
    ParseIntToString(millidegrees);
    ZoneCelsiusOfText(w + "\n", w, millidegrees);
    DegreesOfCount(millidegrees);
  }

  lemma ZoneCelsiusOfText(raw: string, w: string, n: int)
    requires Strip(raw) == w && ParseInt(w) == Some(n)
    ensures ZoneCelsius(raw) == Degrees(Some(n))
  {
  }

  lemma DegreesOfCount(n: int)
    ensures Degrees(Some(n)) == Some(n as real / 1000.0)
  {
  }

  /** `TemperatureCollector.available`: some zone has a `temp` file. */
  predicate Available(zones: seq<Zone>)
  {
    exists i :: 0 <= i < |zones| && zones[i].TempFile?
  }

  /** Discovery and collection agree: when every zone can be read, the collector is available
      exactly when `collect` finds a reading (so an available collector never says "N/A"). */
  lemma AvailableIffReadings(zones: seq<Zone>, config: MonitorConfig)
    requires Readings(zones).Some?
    ensures Available(zones) <==> Reading(zones, config).value != Plain("N/A")
  {
    ReadingsEmpty(zones);
  }
}
