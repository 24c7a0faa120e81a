/** Records shared by the dashboard, the probe endpoint and the chart
    (src/types/index.ts). */
module Types {

  /** A value that may be absent: `null` or a missing key on the TypeScript side. */
  datatype Option<+T> = None | Some(value: T)

  /** The three statuses a monitored site can show. `Checking` is the
      placeholder a site carries until its first check completes. */
  datatype Status = Up | Down | Checking

  /** One monitored site as the dashboard keeps it.
      `lastChecked` is the locale-formatted time of the last completed check.
      `interval` is the optional check interval (in seconds) that the
      interval dialog reads; the record type in the source does not declare it. */
  datatype Website = Website(
    id: string,
    url: string,
    status: Status,
    latency: Option<int>,
    lastChecked: Option<string>,
    interval: Option<int>
  )

  /** One stored check result as the latency chart receives it; `createdAt`
      is the stored timestamp, `latency` is absent for a failed check. */
  datatype StatusCheck = StatusCheck(createdAt: string, latency: Option<int>)
}
