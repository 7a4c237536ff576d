/** `MonitorConfig`: the settings every collector is constructed with. */
module Config {

  /** A (warn, crit) threshold pair. */
  datatype Thresholds = Thresholds(warn: int, crit: int)

  datatype MonitorConfig = MonitorConfig(
    refreshInterval: real,
    historySize: int,
    disk: Thresholds,
    memory: Thresholds,
    cpu: Thresholds,
    temp: Thresholds,
    updates: Thresholds,
    network: Thresholds)

  predicate Ordered(t: Thresholds)
  {
    t.warn < t.crit
  }

  /** `MonitorConfig()` with every field at its default. */
  function DefaultConfig(): (c: MonitorConfig)
    ensures c.refreshInterval > 0.0 && c.historySize > 0
    ensures Ordered(c.disk) && Ordered(c.memory) && Ordered(c.cpu) && Ordered(c.temp)
    ensures Ordered(c.updates) && Ordered(c.network)
    ensures c.memory == c.cpu == c.temp
  {
    MonitorConfig(
      refreshInterval := 1.0,
      historySize := 20,
      disk := Thresholds(80, 95),
      memory := Thresholds(70, 90),
      cpu := Thresholds(70, 90),
      temp := Thresholds(70, 90),
      updates := Thresholds(20, 100),
      network := Thresholds(50, 100))
  }
}
