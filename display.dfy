/** The dashboard's render model: the sparkline glyphs, the colour rule, the uptime text, the
    rows of a metric panel, and the page layout (header, metric panels two to a row, footer).
    Rich's renderables are replaced by the datatypes below, which keep what each one shows. */
module Display {
  import opened Env
  import opened Text
  import opened Numeric
  import opened Collector

  // ---------------------------------------------------------------------------------------
  // Sparkline

  /** `SPARK_CHARS`: the five glyphs, lowest first. */
  const SparkChars: string := "\U{2581}\U{2582}\U{2583}\U{2585}\U{2587}"

  /** `values[-width:]`, with Python's slicing: the last `width` values for a positive width,
      the whole list for width 0, the list without its first `-width` values for a negative
      width. */
  function Tail(values: seq<real>, width: int): (w: seq<real>)
    ensures |w| <= |values|
    ensures w == values[|values| - |w|..]
    ensures width > 0 ==> |w| == if |values| <= width then |values| else width
  {
    if width > 0 then (if |values| <= width then values else values[|values| - width..])
    else if width == 0 then values
    else if -width >= |values| then []
    else values[-width..]
  }

  /** The glyph index of `v`: its position between `lo` and `lo + span`, scaled to 0..4 and
      truncated, capped at 4. */
  function Bucket(v: real, lo: real, span: real): (b: nat)
    requires lo <= v && span > 0.0
    ensures b <= 4
  {
    var x := (v - lo) / span * 4.0;
    assert x >= 0.0;
    var raw := Trunc(x);
    if raw < 4 then raw else 4
  }

  /** The glyphs of a window `w` on the scale starting at `lo` with width `span`. */
  function Glyphs(w: seq<real>, lo: real, span: real): (r: string)
    requires span > 0.0 && forall i :: 0 <= i < |w| ==> lo <= w[i]
    ensures |r| == |w|
  {
    seq(|w|, i requires 0 <= i < |w| => SparkChars[Bucket(w[i], lo, span)])
  }

  /** The span of the scale: the range of the series, or 1.0 for a constant series. */
  function Span(values: seq<real>): (span: real)
    requires values != []
    ensures span > 0.0
  {
    var lo := Min(values);
    var hi := Max(values);
    if hi != lo then hi - lo else 1.0
  }

  /** `_sparkline(values, width)`: one glyph per value of the rendered window, placed on the
      scale between the minimum and maximum of the whole series. */
  function Sparkline(values: seq<real>, width: int := 20): (r: string)
    ensures values == [] ==> r == ""
    ensures |r| == |Tail(values, width)|
  {
    if values == [] then ""
    else
      var w := Tail(values, width);
      assert forall i :: 0 <= i < |w| ==> w[i] == values[|values| - |w| + i];
      Glyphs(w, Min(values), Span(values))
  }

  /** Glyph `i` of the sparkline is the bucket of the `i`-th value of the window, on the scale
      of the whole series. */
  lemma SparklineGlyph(values: seq<real>, width: int, i: nat)
    requires i < |Sparkline(values, width)|
    ensures values != []
    ensures Min(values) <= Tail(values, width)[i]
    ensures Sparkline(values, width)[i] == SparkChars[Bucket(Tail(values, width)[i], Min(values), Span(values))]
  {
    var w := Tail(values, width);
    assert w[i] == values[|values| - |w| + i];
  }

  /** Every character of a sparkline is one of the five glyphs. */
  lemma SparklineUsesGlyphs(values: seq<real>, width: int)
    ensures forall i :: 0 <= i < |Sparkline(values, width)| ==> Sparkline(values, width)[i] in SparkChars
  {
    forall i | 0 <= i < |Sparkline(values, width)| ensures Sparkline(values, width)[i] in SparkChars {
      SparklineGlyph(values, width, i);
    }
  }

  /** For a positive width the sparkline has one glyph per value up to `width`. */
  lemma SparklineLength(values: seq<real>, width: int)
    requires width > 0
    ensures |Sparkline(values, width)| == if |values| <= width then |values| else width
  {
  }

  /** A series with one repeated value uses span 1.0 and draws the lowest glyph everywhere. */
  lemma SparklineConstant(values: seq<real>, c: real, width: int)
    requires forall i :: 0 <= i < |values| ==> values[i] == c
    ensures forall i :: 0 <= i < |Sparkline(values, width)| ==> Sparkline(values, width)[i] == SparkChars[0]
  {
    if values != [] {
      var lo, hi := Min(values), Max(values);
      assert lo == c && hi == c;
      var r := Sparkline(values, width);
      var w := Tail(values, width);
      forall i | 0 <= i < |r| ensures r[i] == SparkChars[0] {
        SparklineGlyph(values, width, i);
        assert w[i] == values[|values| - |w| + i];
        assert Bucket(w[i], lo, 1.0) == 0;
      }
    }
  }

  /** A larger value never gets a lower glyph. */
  lemma BucketMonotone(v1: real, v2: real, lo: real, span: real)
    requires lo <= v1 <= v2 && span > 0.0
    ensures Bucket(v1, lo, span) <= Bucket(v2, lo, span)
  {
    var x1 := (v1 - lo) / span * 4.0;
    var x2 := (v2 - lo) / span * 4.0;
    assert (v1 - lo) / span <= (v2 - lo) / span by {
      DivMonotone(v1 - lo, v2 - lo, span);
    }
    assert x1 <= x2;
  }

  lemma DivMonotone(a: real, b: real, d: real)
    requires a <= b && d > 0.0
    ensures a / d <= b / d
  {
    var qa, qb := a / d, b / d;
    assert qa * d == a && qb * d == b;
  }

  /** The minimum of the series draws the lowest glyph and, when the series is not constant,
      the maximum draws the highest. */
  lemma BucketEnds(lo: real, hi: real)
    requires lo < hi
    ensures Bucket(lo, lo, hi - lo) == 0
    ensures Bucket(hi, lo, hi - lo) == 4
  {
    assert (hi - lo) / (hi - lo) == 1.0;
  }

  /** An illustration, on one concrete input, of what `SparklineGlyph` states for every input.
      The scale comes from the whole series, not the rendered window: the last value of
      [0, 10, 5] in a window of one is drawn at the middle of 0..10 (the third glyph), while
      the same value on its own would be the lowest glyph. */
  lemma SparklineScaleIsWholeSeries()
    ensures Sparkline([0.0, 10.0, 5.0], 1) == [SparkChars[2]]
    ensures Sparkline([5.0], 1) == [SparkChars[0]]
  {
    var s := [0.0, 10.0, 5.0];
    assert Min(s) == 0.0 && Max(s) == 10.0;
    assert Tail(s, 1) == [5.0];
    SparklineGlyph(s, 1, 0);
    SparklineGlyph([5.0], 1, 0);
    assert (5.0 - 0.0) / 10.0 * 4.0 == 2.0;
    assert Bucket(5.0, 0.0, 10.0) == 2;
    assert Min([5.0]) == 5.0 && Max([5.0]) == 5.0;
    assert Bucket(5.0, 5.0, 1.0) == 0;
  }

  // ---------------------------------------------------------------------------------------
  // Colour rule, uptime

  /** `_color_gradient`: the shared severity rule, with thresholds 70 and 90 by default. */
  function ColorGradient(pct: real, warn: int := 70, crit: int := 90): (c: Color)
    ensures c == Green <==> pct < warn as real
    ensures c == Yellow <==> warn as real <= pct < crit as real
    ensures c == Red <==> warn as real <= pct && crit as real <= pct
  {
    Grade(pct, warn, crit)
  }

  /** Whole hours and the remaining whole minutes of a number of seconds (`secs // 3600` and
      `(secs % 3600) // 60`, floor division on floats). */
  function HoursMinutes(secs: real): (hm: (int, int))
    ensures var (h, m) := hm;
      && 0 <= m < 60
      && (h * 3600 + m * 60) as real <= secs < (h * 3600 + m * 60 + 60) as real
  {
    var h := FloorDiv(secs, 3600.0);
    var rest := Mod(secs, 3600.0);
    var m := FloorDiv(rest, 60.0);
    assert 0 <= m by {
      assert rest < (m + 1) as real * 60.0;
    }
    assert m < 60 by {
      assert m as real * 60.0 <= rest < 3600.0;
    }
    (h, m)
  }

  /** The uptime shown in the header: "<h>h <m>m" when at least an hour has passed,
      otherwise "<m>m". */
  function UptimeText(secs: real): (t: string)
    ensures |t| > 0 && t[|t| - 1] == 'm'
  {
    var (h, m) := HoursMinutes(secs);
    if h > 0 then IntToString(h) + "h " + IntToString(m) + "m" else IntToString(m) + "m"
  }

  /** The fraction of a second that /proc/uptime carries never changes the text: only the
      whole seconds count. */
  lemma UptimeTextIgnoresFraction(n: nat, f: real)
    requires 0.0 <= f < 1.0
    ensures UptimeText(n as real + f) == UptimeText(n as real)
  {
    var (h1, m1) := HoursMinutes(n as real + f);
    var (h2, m2) := HoursMinutes(n as real);
    WholeMinutesAgree(n, f, h1, m1, h2, m2);
  }

  /** Two hour/minute splits bracketing n + f and n, with f below one second, are equal. */
  lemma WholeMinutesAgree(n: nat, f: real, h1: int, m1: int, h2: int, m2: int)
    requires 0.0 <= f < 1.0 && 0 <= m1 < 60 && 0 <= m2 < 60
    requires (h1 * 3600 + m1 * 60) as real <= n as real + f < (h1 * 3600 + m1 * 60 + 60) as real
    requires (h2 * 3600 + m2 * 60) as real <= n as real < (h2 * 3600 + m2 * 60 + 60) as real
    ensures h1 == h2 && m1 == m2
  {
    var t1 := h1 * 60 + m1;
    var t2 := h2 * 60 + m2;
    assert t1 * 60 <= n < t1 * 60 + 60;
    assert t2 * 60 <= n < t2 * 60 + 60;
    assert t1 == t2;
  }

  /** `_get_uptime` on the text of /proc/uptime (`None`: the read raised): the first number is
      the seconds since boot; no number or an unreadable one gives "N/A". */
  function Uptime(file: Option<string>): (t: string)
    ensures t == "N/A" <==>
      file.None? || Words(file.value) == [] || ParseDecimal(Words(file.value)[0]).None?
    ensures file.Some? && Words(file.value) != [] && ParseDecimal(Words(file.value)[0]).Some? ==>
      t == UptimeText(ParseDecimal(Words(file.value)[0]).value)
  {
    if file.None? then "N/A"
    else
      var words := Words(file.value);
      if words == [] then "N/A"
      else
        var secs := ParseDecimal(words[0]);
        if secs.None? then "N/A" else UptimeText(secs.value)
  }

  /** On /proc/uptime written with whole seconds, the header shows integer division of
      those seconds into hours and minutes. */
  lemma UptimeOfWholeSeconds(n: nat, idle: string)
    requires idle != [] && NoSpace(idle)
    ensures Uptime(Some(NatToString(n) + " " + idle)) ==
      (if n / 3600 > 0 then IntToString(n / 3600) + "h " + IntToString(n % 3600 / 60) + "m"
       else IntToString(n % 3600 / 60) + "m")
  {
    SplitJoinWords([NatToString(n), idle]);
    assert JoinWords([NatToString(n), idle]) == NatToString(n) + " " + idle;
    ParseDecimalOfNat(n);
    UptimeTextOfWholeSeconds(n);
  }

  lemma UptimeTextOfWholeSeconds(n: nat)
    ensures HoursMinutes(n as real) == (n / 3600, n % 3600 / 60)
  {
    var (h, m) := HoursMinutes(n as real);
    assert (h * 3600 + m * 60) <= n < (h * 3600 + m * 60 + 60);
    var a, b := n / 3600, n % 3600 / 60;
    assert n == a * 3600 + n % 3600;
    assert n % 3600 == b * 60 + n % 3600 % 60;
    assert h == a;
    assert m == b;
  }

  // ---------------------------------------------------------------------------------------
  // Panels and layout

  /** One row of a metric panel's grid. A `BarRow` is the usage bar (filled to
      `percentage` out of 100, with the percentage beside it) next to the value; a
      `ValueRow` is the value alone; a `SparkRow` is the history sparkline. */
  datatype PanelRow =
    | BarRow(percentage: real, color: Color, value: Value)
    | ValueRow(value: Value, color: Color)
    | SparkRow(spark: string, color: Color)

  /** A bordered panel: its title and its grid rows, top to bottom. */
  datatype Panel = Panel(title: string, rows: seq<PanelRow>)

  /** `_build_metric_panel`: a bar row when the sample has a percentage (the value row
      otherwise), then a sparkline row when there is a non-empty history. */
  function MetricPanel(metric: MetricResult, history: Option<seq<real>>): (p: Panel)
    ensures p.title == metric.icon + "  " + metric.caption
    ensures |p.rows| == if history.Some? && history.value != [] then 2 else 1
    ensures p.rows[0].BarRow? <==> metric.percentage.Some?
    ensures metric.percentage.Some? ==> p.rows[0] == BarRow(metric.percentage.value, metric.color, metric.value)
    ensures metric.percentage.None? ==> p.rows[0] == ValueRow(metric.value, metric.color)
    ensures |p.rows| == 2 ==> p.rows[1] == SparkRow(Sparkline(history.value), metric.color)
  {
    var first :=
      if metric.percentage.Some? then BarRow(metric.percentage.value, metric.color, metric.value)
      else ValueRow(metric.value, metric.color);
    var spark := if history.Some? && history.value != [] then [SparkRow(Sparkline(history.value), metric.color)] else [];
    Panel(metric.icon + "  " + metric.caption, [first] + spark)
  }

  /** `history.get(m.label.lower())`. */
  function HistoryFor(history: map<string, seq<real>>, metric: MetricResult): (h: Option<seq<real>>)
    ensures h.Some? <==> Lower(metric.caption) in history
    ensures h.Some? ==> h.value == history[Lower(metric.caption)]
  {
    var key := Lower(metric.caption);
    if key in history then Some(history[key]) else None
  }

  /** The text of the header: host name, kernel release and uptime. */
  datatype Header = Header(hostname: string, kernel: string, uptime: string)

  /** The text of the footer: the refresh interval (formatted with no decimals) and the
      wall-clock time. */
  datatype Footer = Footer(interval: real, clock: string)

  /** The second column of a grid row: a panel, or the empty text that pads an odd last row. */
  datatype Cell = PanelCell(panel: Panel) | EmptyCell

  /** One row of the page. */
  datatype LayoutRow = HeaderRow(header: Header) | GridRow(left: Panel, right: Cell) | FooterRow(footer: Footer)

  /** The environment the header reads: host name, kernel release and /proc/uptime. */
  datatype HostInfo = HostInfo(hostname: string, kernel: string, uptimeFile: Option<string>)

  /** `_build_header`. */
  function HeaderOf(host: HostInfo): Header
  {
    Header(host.hostname, host.kernel, Uptime(host.uptimeFile))
  }

  /** The panel of metric `i`. */
  function PanelAt(metrics: seq<MetricResult>, history: map<string, seq<real>>, i: nat): Panel
    requires i < |metrics|
  {
    MetricPanel(metrics[i], HistoryFor(history, metrics[i]))
  }

  /** Grid row `k` of the page: pair `k`, padded with the empty cell when it has one panel. */
  function GridAt(metrics: seq<MetricResult>, history: map<string, seq<real>>, k: nat): LayoutRow
    requires 2 * k < |metrics|
  {
    GridRow(PanelAt(metrics, history, 2 * k),
      if 2 * k + 1 < |metrics| then PanelCell(PanelAt(metrics, history, 2 * k + 1)) else EmptyCell)
  }

  /** What `render` promises: the header, then the panels in input order two to a row (an odd
      last panel padded with an empty cell), then the footer. */
  predicate IsLayout(layout: seq<LayoutRow>, metrics: seq<MetricResult>, history: map<string, seq<real>>,
                     interval: real, header: Header, clock: string)
  {
    && |layout| == (|metrics| + 1) / 2 + 2
    && layout[0] == HeaderRow(header)
    && layout[|layout| - 1] == FooterRow(Footer(interval, clock))
    && forall k :: 0 <= k < (|metrics| + 1) / 2 ==> layout[k + 1] == GridAt(metrics, history, k)
  }

  /** The page `render` builds from its inputs. */
  function LayoutOf(metrics: seq<MetricResult>, history: map<string, seq<real>>, interval: real,
                    header: Header, clock: string): seq<LayoutRow>
  {
    [HeaderRow(header)] + GridRows(metrics, history) + [FooterRow(Footer(interval, clock))]
  }

  /** The grid rows of the page, one per pair of metrics. */
  function GridRows(metrics: seq<MetricResult>, history: map<string, seq<real>>): (rows: seq<LayoutRow>)
    ensures |rows| == (|metrics| + 1) / 2
  {
    seq((|metrics| + 1) / 2, k requires 0 <= k < (|metrics| + 1) / 2 => GridAt(metrics, history, k))
  }

  /** The page of `LayoutOf` is one `render` may return. */
  lemma LayoutOfIsLayout(metrics: seq<MetricResult>, history: map<string, seq<real>>, interval: real,
                         header: Header, clock: string)
    ensures IsLayout(LayoutOf(metrics, history, interval, header, clock), metrics, history, interval, header, clock)
  {
    var grid := GridRows(metrics, history);
    var layout := LayoutOf(metrics, history, interval, header, clock);
    forall k | 0 <= k < |grid| ensures layout[k + 1] == GridAt(metrics, history, k) {
      assert layout[k + 1] == grid[k];
    }
  }

  /** `IsLayout` admits exactly one page: the promise of `render` fixes its result. */
  lemma LayoutIsUnique(layout: seq<LayoutRow>, metrics: seq<MetricResult>, history: map<string, seq<real>>,
                       interval: real, header: Header, clock: string)
    requires IsLayout(layout, metrics, history, interval, header, clock)
    ensures layout == LayoutOf(metrics, history, interval, header, clock)
  {
    var grid := GridRows(metrics, history);
    forall k | 0 <= k < |grid| ensures layout[k + 1] == grid[k] {
    }
    FramedBy(layout, HeaderRow(header), grid, FooterRow(Footer(interval, clock)));
  }

  /** A sequence that starts with `first`, ends with `last` and holds `middle` in between is
      `[first] + middle + [last]`. */
  lemma FramedBy<T>(xs: seq<T>, first: T, middle: seq<T>, last: T)
    requires |xs| == |middle| + 2 && xs[0] == first && xs[|xs| - 1] == last
    requires forall k :: 0 <= k < |middle| ==> xs[k + 1] == middle[k]
    ensures xs == [first] + middle + [last]
  {
    var ys := [first] + middle + [last];
    forall i | 0 <= i < |xs| ensures xs[i] == ys[i] {
      if 0 < i < |xs| - 1 {
        assert xs[(i - 1) + 1] == middle[i - 1];
      }
    }
  }

  /** Every metric is shown exactly once, at row `i / 2 + 1`, on the left for even `i` and on
      the right for odd `i`. */
  lemma LayoutPlacesEveryMetric(layout: seq<LayoutRow>, metrics: seq<MetricResult>, history: map<string, seq<real>>,
                                interval: real, header: Header, clock: string, i: nat)
    requires IsLayout(layout, metrics, history, interval, header, clock) && i < |metrics|
    ensures i % 2 == 0 ==> layout[i / 2 + 1].GridRow? && layout[i / 2 + 1].left == PanelAt(metrics, history, i)
    ensures i % 2 == 1 ==> layout[i / 2 + 1].GridRow? && layout[i / 2 + 1].right == PanelCell(PanelAt(metrics, history, i))
  {
    var k := i / 2;
    assert i == 2 * k + i % 2;
    assert k < (|metrics| + 1) / 2;
    var row := GridAt(metrics, history, k);
    assert layout[k + 1] == row;
    if i % 2 == 0 {
      assert 2 * k == i;
      assert row.left == PanelAt(metrics, history, i);
    } else {
      assert 2 * k + 1 == i;
      assert row.right == PanelCell(PanelAt(metrics, history, i));
    }
  }

  /** The first loop of `render`: a panel is built for each metric in turn and the panels
      are collected into pairs, in order, the odd last one alone. */
  method PairUp<P>(metrics: seq<MetricResult>, build: MetricResult -> P) returns (pairs: seq<seq<P>>)
    ensures |pairs| == (|metrics| + 1) / 2
    ensures forall k :: 0 <= k < |pairs| ==>
      && 2 * k < |metrics|
      && pairs[k] == (if 2 * k + 1 < |metrics| then [build(metrics[2 * k]), build(metrics[2 * k + 1])]
                      else [build(metrics[2 * k])])
  {
    pairs := [];
    var row: seq<P> := [];
    var i := 0;
    while i < |metrics|
      invariant 0 <= i <= |metrics|
      invariant |row| < 2 && |pairs| * 2 + |row| == i
      invariant |row| == 1 ==> row == [build(metrics[i - 1])]
      invariant forall k :: 0 <= k < |pairs| ==> 2 * k + 1 < |metrics| && pairs[k] == [build(metrics[2 * k]), build(metrics[2 * k + 1])]
    {
      var panel := build(metrics[i]);
      row := row + [panel];
      if |row| == 2 {
        pairs := pairs + [row];
        row := [];
      }
      i := i + 1;
    }
    if row != [] {
      pairs := pairs + [row];
    }
  }

  /** The grid row of a pair: its first panel, and its second or the empty cell. */
  function GridOf(pair: seq<Panel>): LayoutRow
    requires pair != []
  {
    GridRow(pair[0], if |pair| >= 2 then PanelCell(pair[1]) else EmptyCell)
  }

  /** `render`: the header row, one grid row per pair of panels, and the footer row. */
  method Render(metrics: seq<MetricResult>, history: map<string, seq<real>>, interval: real,
                host: HostInfo, clock: string) returns (layout: seq<LayoutRow>)
    ensures IsLayout(layout, metrics, history, interval, HeaderOf(host), clock)
  {
    var header := HeaderOf(host);
    layout := [HeaderRow(header)];
    var build := m => MetricPanel(m, HistoryFor(history, m));
    var pairs := PairUp(metrics, build);
    var p := 0;
    while p < |pairs|
      invariant 0 <= p <= |pairs|
      invariant |layout| == p + 1 && layout[0] == HeaderRow(header)
      invariant forall k :: 0 <= k < p ==> pairs[k] != [] && layout[k + 1] == GridOf(pairs[k])
    {
      var pair := pairs[p];
      if |pair| == 2 {
        layout := layout + [GridRow(pair[0], PanelCell(pair[1]))];
      } else {
        layout := layout + [GridRow(pair[0], EmptyCell)];
      }
      p := p + 1;
    }
    layout := layout + [FooterRow(Footer(interval, clock))];
    forall k | 0 <= k < |pairs| ensures layout[k + 1] == GridAt(metrics, history, k) {
      assert build(metrics[2 * k]) == PanelAt(metrics, history, 2 * k);
      if 2 * k + 1 < |metrics| {
        assert build(metrics[2 * k + 1]) == PanelAt(metrics, history, 2 * k + 1);
      }
    }
  }
}
