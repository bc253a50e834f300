/**
 * The alert record that the Redis monitor raises and the alert manager
 * stamps, deduplicates and records.
 */
module Alerts {
  import opened Base

  const LevelInfo := "INFO"
  const LevelWarning := "WARNING"
  const LevelError := "ERROR"
  const LevelCritical := "CRITICAL"

  /** An alert. `timestamp` (milliseconds) and `id` are absent until the
      alert manager stamps them. The human-readable message is not modelled. */
  datatype Alert = Alert(
    level: string,
    metric: string,
    value: JsNumber,
    threshold: real,
    timestamp: Option<int>,
    id: Option<string>)
}
