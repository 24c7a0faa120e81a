/** The latency chart (src/components/response-time-chart.tsx): each stored
    check becomes a point (formatted time, latency) and the points are put in
    reverse order. Locale time formatting is the parameter `timeOf`. */
module ResponseTimeChart {
  import opened Types

  /** One point of the line chart. */
  datatype ChartPoint = ChartPoint(time: string, latency: Option<int>)

  /** The point drawn for one check; the latency is copied as is, absent included. */
  function PointOf(check: StatusCheck, timeOf: string -> string): ChartPoint {
    ChartPoint(timeOf(check.createdAt), check.latency)
  }

  /** `data.map(...)`: one point per check, in the same order. */
  function Points(data: seq<StatusCheck>, timeOf: string -> string): (r: seq<ChartPoint>)
    ensures |r| == |data|
    ensures forall i :: 0 <= i < |data| ==> r[i] == PointOf(data[i], timeOf)
  {
    if data == [] then [] else [PointOf(data[0], timeOf)] + Points(data[1..], timeOf)
  }

  /** `.reverse()`: the same elements, last first; `ReverseIndex` gives each position. */
  function Reverse<T>(s: seq<T>): (r: seq<T>)
    ensures |r| == |s|
  {
    if s == [] then [] else Reverse(s[1..]) + [s[0]]
  }

  /** Position `k` of the reversed sequence holds the element `k` places from the end. */
  lemma {:induction false} ReverseIndex<T>(s: seq<T>)
    ensures |Reverse(s)| == |s|
    ensures forall k :: 0 <= k < |s| ==> Reverse(s)[k] == s[|s| - 1 - k]
  {
    if s != [] {
      ReverseIndex(s[1..]);
    }
  }

  /** Reversing twice gives the original sequence back. */
  lemma ReverseInvolutive<T>(s: seq<T>)
    ensures Reverse(Reverse(s)) == s
  {
    ReverseIndex(s);
    ReverseIndex(Reverse(s));
  }

  /** The chart series: as many points as checks, point `i` drawn from the
      check `i` places from the end, latencies copied unchanged. */
  function ChartData(data: seq<StatusCheck>, timeOf: string -> string): (r: seq<ChartPoint>)
    ensures |r| == |data|
    ensures forall i :: 0 <= i < |data| ==>
              r[i].latency == data[|data| - 1 - i].latency && r[i].time == timeOf(data[|data| - 1 - i].createdAt)
  {
    ReverseIndex(Points(data, timeOf));
    Reverse(Points(data, timeOf))
  }

  /** Reversing the series gives back the points in the order of the checks. */
  lemma ChartDataUndoesOrder(data: seq<StatusCheck>, timeOf: string -> string)
    ensures Reverse(ChartData(data, timeOf)) == Points(data, timeOf)
  {
    ReverseInvolutive(Points(data, timeOf));
  }
}
