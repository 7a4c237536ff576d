/** The sample every collector produces and the collector contract: which metric kinds exist,
    their history names, labels and icons, the shared severity rule and the error sentinel. */
module Collector {
  import opened Env

  /** The colour (severity) a sample is drawn in. `Cyan` is the network's neutral colour and
      `Dim` marks a sample with nothing to report yet. */
  datatype Color = Green | Yellow | Red | Cyan | Dim

  /** How a float is turned into text: Python's shortest round-tripping `repr`, or a fixed
      number of decimals (`:.0f`, `:.1f`). */
  datatype NumberFormat = Repr | Fixed(decimals: nat)

  /** The unit of a throughput figure; the prefixes are decimal (1 KB = 1,000 bytes). */
  datatype SpeedUnit = BytesPerSec | KiloBytesPerSec | MegaBytesPerSec

  /** A throughput figure as displayed: an amount in a unit. */
  datatype Speed = Speed(amount: real, unit: SpeedUnit)

  /** A sample's display value. Text is kept exactly; a float is kept as the number and the
      format it is written in. */
  datatype Value =
    | Plain(text: string)
    | Number(x: real, format: NumberFormat, suffix: string)
    | Throughput(down: Speed, up: Speed)

  /** `MetricResult`: one reading of one metric. The Python field `label` is `caption` here,
      because `label` is a Dafny keyword. */
  datatype MetricResult = MetricResult(
    caption: string,
    value: Value,
    icon: string,
    color: Color,
    percentage: Option<real>,
    unit: string)

  /** `MetricResult(label, value, icon, color)`: the record with its two defaulted fields left
      at their defaults. */
  function Sample(caption: string, value: Value, icon: string, color: Color): (m: MetricResult)
    ensures m.percentage == None && m.unit == ""
    ensures m.caption == caption && m.value == value && m.icon == icon && m.color == color
  {
    MetricResult(caption, value, icon, color, None, "")
  }

  /** The collector variants. */
  datatype Kind = Disk | Memory | Cpu | Network | Temperature | Updates

  /** The collector's `name` property. */
  function Name(k: Kind): string
  {
    match k
    case Disk => "disk"
    case Memory => "memory"
    case Cpu => "cpu"
    case Network => "network"
    case Temperature => "temperature"
    case Updates => "updates"
  }

  /** The label on every sample the collector produces. */
  function Label(k: Kind): string
  {
    match k
    case Disk => "Disk"
    case Memory => "Memory"
    case Cpu => "CPU"
    case Network => "Network"
    case Temperature => "Temp"
    case Updates => "Updates"
  }

  /** The icon on every sample the collector produces (Nerd Font code points). */
  function Icon(k: Kind): string
  {
    match k
    case Disk => "\U{F02CA}"
    case Memory => "\U{F035B}"
    case Cpu => "\U{F0EE0}"
    case Network => "\U{F06F3}"
    case Temperature => "\U{F050F}"
    case Updates => "\U{F03D4}"
  }

  /** Names and labels tell the collectors apart. */
  lemma NamesAndLabelsDistinct(a: Kind, b: Kind)
    requires a != b
    ensures Name(a) != Name(b) && Label(a) != Label(b)
  {
  }

  /** What a collector returns when anything inside `collect` raised. */
  function ErrorSample(k: Kind): (m: MetricResult)
    ensures m.caption == Label(k) && m.icon == Icon(k)
    ensures m.value == Plain("Error") && m.color == Red && m.percentage == None
  {
    Sample(Label(k), Plain("Error"), Icon(k), Red)
  }

  /** The severity rule every threshold check follows: green below `warn`, yellow from `warn`
      up to (not including) `crit`, red from there on. */
  function Grade(x: real, warn: int, crit: int): (c: Color)
    ensures c == Green <==> x < warn as real
    ensures c == Yellow <==> warn as real <= x < crit as real
    ensures c == Red <==> warn as real <= x && crit as real <= x
  {
    if x < warn as real then Green else if x < crit as real then Yellow else Red
  }

  function Rank(c: Color): nat
  {
    match c
    case Green => 0
    case Yellow => 1
    case Red => 2
    case _ => 3
  }

  /** A larger value is never graded less severe. */
  lemma GradeMonotone(x: real, y: real, warn: int, crit: int)
    requires x <= y
    ensures Rank(Grade(x, warn, crit)) <= Rank(Grade(y, warn, crit))
  {
  }
}
