/** The probe endpoint (src/app/api/check-status/route.ts): a POST with
    `{ url }` is answered with the site's status, the measured latency and a
    label for where the probe ran. The network request, the two clock
    readings and the edge headers are inputs, so the handler is a total
    function. */
module CheckStatusRoute {
  import opened Types

  /** What `request.json()` produced: either it threw, or it gave an object
      whose `url` field is absent or a string. */
  datatype RequestBody = Unparseable | Parsed(url: Option<string>)

  /** What the outbound `fetch(url)` did: it answered (with `response.ok` and
      `response.status`), or it threw. The Fetch standard sets `ok` exactly
      for statuses 200 to 299; the model takes both as given, and no property
      below depends on how they are paired (see `OkMatchesStatus`). */
  datatype FetchResult = Responded(ok: bool, httpStatus: int) | Threw

  /** The pairing of `ok` and the status code that a real response has. */
  predicate OkMatchesStatus(f: FetchResult) {
    f.Responded? ==> (f.ok <==> 200 <= f.httpStatus <= 299)
  }

  /** The three edge headers; `None` when the header is missing. */
  datatype EdgeHeaders = EdgeHeaders(city: Option<string>, region: Option<string>, country: Option<string>)

  /** The JSON reply. `Rejected` is the 400 error; `Checked` is the probe
      result, whose `statusCode` is present only for a non-ok answer. */
  datatype Reply =
    | Rejected(error: string, httpStatus: int)
    | Checked(status: Status, latency: Option<int>, statusCode: Option<int>, monitoringLocation: string)

  /** The reply together with the URL handed to `fetch` (`None`: no probe). */
  datatype Handling = Handling(probed: Option<string>, reply: Reply)

  const UrlRequired := "URL is required"
  const BadRequest := 400
  const UnknownLocation := "Unknown Location"
  const Separator := ", "

  /** `!url` is false: the field is present and not the empty string. */
  predicate HasUrl(body: RequestBody) {
    body.Parsed? && body.url.Some? && body.url.value != ""
  }

  /** `request.headers.get(name) || ''` */
  function HeaderOrEmpty(v: Option<string>): (s: string)
    ensures v.Some? ==> s == v.value
    ensures s == "" <==> v.None? || v.value == ""
  {
    if v.Some? then v.value else ""
  }

  /** `parts.filter(Boolean)` on strings: keeps the non-empty ones, in order. */
  function NonEmptyParts(parts: seq<string>): (r: seq<string>)
    ensures |r| <= |parts|
    ensures forall p :: p in r <==> p in parts && p != ""
  {
    if parts == [] then []
    else if parts[0] == "" then NonEmptyParts(parts[1..])
    else [parts[0]] + NonEmptyParts(parts[1..])
  }

  /** Filtering keeps order and repetitions: filtering a concatenation is
      filtering each part. */
  lemma {:induction false} NonEmptyPartsAppend(a: seq<string>, b: seq<string>)
    ensures NonEmptyParts(a + b) == NonEmptyParts(a) + NonEmptyParts(b)
  {
    if a == [] {
      assert a + b == b;
    } else {
      assert (a + b)[1..] == a[1..] + b;
      NonEmptyPartsAppend(a[1..], b);
    }
  }

  /** The total number of characters in the parts. */
  function TotalLength(parts: seq<string>): nat {
    if parts == [] then 0 else |parts[0]| + TotalLength(parts[1..])
  }

  /** `parts.join(sep)`: every part once, in order, with one separator
      between neighbours and none at the ends. */
  function Join(parts: seq<string>, sep: string): (r: string)
    ensures parts != [] ==> |r| == TotalLength(parts) + |sep| * (|parts| - 1)
    ensures parts != [] ==> r[..|parts[0]|] == parts[0]
  {
    if parts == [] then ""
    else if |parts| == 1 then parts[0]
    else parts[0] + sep + Join(parts[1..], sep)
  }

  /** Joining gives the empty string only when every part is empty and,
      if there are several parts, the separator is empty too. */
  lemma {:induction false} JoinEmptyIff(parts: seq<string>, sep: string)
    requires sep != ""
    ensures Join(parts, sep) == "" <==> |parts| == 0 || (|parts| == 1 && parts[0] == "")
  {
    if |parts| > 1 {
      assert |parts[0] + sep + Join(parts[1..], sep)| >= |sep| > 0;
    }
  }

  /** Joining two non-empty lists is joining each and putting the separator
      between them. */
  lemma {:induction false} JoinAppend(a: seq<string>, b: seq<string>, sep: string)
    requires a != [] && b != []
    ensures Join(a + b, sep) == Join(a, sep) + sep + Join(b, sep)
  {
    if |a| == 1 {
      assert (a + b)[1..] == b;
    } else {
      assert (a + b)[1..] == a[1..] + b;
      JoinAppend(a[1..], b, sep);
    }
  }

  /** The monitoring location label: the non-empty ones among city, region
      and country, in that order, joined by ", "; "Unknown Location" when
      all three are empty or missing. It is never empty. */
  function LocationLabel(h: EdgeHeaders): (loc: string)
    ensures loc != ""
  {
    var parts := [HeaderOrEmpty(h.city), HeaderOrEmpty(h.region), HeaderOrEmpty(h.country)];
    var joined := Join(NonEmptyParts(parts), Separator);
    if joined == "" then UnknownLocation else joined
  }

  /** With no usable header the label is the fixed fallback. */
  lemma UnknownWhenNoHeaders(h: EdgeHeaders)
    requires HeaderOrEmpty(h.city) == "" && HeaderOrEmpty(h.region) == "" && HeaderOrEmpty(h.country) == ""
    ensures LocationLabel(h) == UnknownLocation
  {
  }

  /** With at least one usable header the label lists exactly the usable
      ones, in the order city, region, country. */
  lemma {:induction false} LabelListsPresentParts(h: EdgeHeaders)
    requires HeaderOrEmpty(h.city) != "" || HeaderOrEmpty(h.region) != "" || HeaderOrEmpty(h.country) != ""
    ensures LocationLabel(h) == Join(NonEmptyParts([HeaderOrEmpty(h.city), HeaderOrEmpty(h.region), HeaderOrEmpty(h.country)]), Separator)
  {
    var parts := [HeaderOrEmpty(h.city), HeaderOrEmpty(h.region), HeaderOrEmpty(h.country)];
    var kept := NonEmptyParts(parts);
    if parts[0] != "" {
      assert parts[0] in kept;
    } else if parts[1] != "" {
      assert parts[1] in kept;
    } else {
      assert parts[2] in kept;
    }
    JoinEmptyIff(kept, Separator);
    if |kept| == 1 {
      assert kept[0] in kept;
    }
  }

  /** The handler: `POST` of route.ts, with the network, the clock and the
      headers as inputs. */
  function Handle(body: RequestBody, headers: EdgeHeaders, fetch: FetchResult, startTime: int, endTime: int): (h: Handling)
    // a missing or empty url is the 400 error, and only it; no probe is made
    ensures h.reply.Rejected? <==> body.Parsed? && !HasUrl(body)
    ensures h.reply.Rejected? ==> h.reply.error == UrlRequired && h.reply.httpStatus == BadRequest
    // the probe, when made, goes to the url from the body
    ensures h.probed.Some? <==> HasUrl(body)
    ensures h.probed.Some? ==> h.probed.value == body.url.value
    // Up exactly when the probe answered with an ok response
    ensures h.reply.Checked? && h.reply.status == Up <==> HasUrl(body) && fetch.Responded? && fetch.ok
    ensures h.reply.Checked? ==> h.reply.status != Checking
    // a status code is attached exactly to a non-ok answer, and it is the answer's
    ensures h.reply.Checked? && h.reply.statusCode.Some? <==> HasUrl(body) && fetch.Responded? && !fetch.ok
    ensures h.reply.Checked? && h.reply.statusCode.Some? ==> h.reply.statusCode.value == fetch.httpStatus
    // latency is measured exactly when the probe answered, as end minus start
    ensures h.reply.Checked? && h.reply.latency.Some? <==> HasUrl(body) && fetch.Responded?
    ensures h.reply.Checked? && h.reply.latency.Some? ==> h.reply.latency.value == endTime - startTime
    // every probe result, success or exception, carries the same location label
    ensures h.reply.Checked? ==> h.reply.monitoringLocation == LocationLabel(headers)
  {
    match body
    case Unparseable =>
      Handling(None, Checked(Down, None, None, LocationLabel(headers)))
    case Parsed(url) =>
      if !HasUrl(body) then
        Handling(None, Rejected(UrlRequired, BadRequest))
      else
        var location := LocationLabel(headers);
        var reply :=
          match fetch
          case Threw => Checked(Down, None, None, location)
          case Responded(ok, code) =>
            var latency := endTime - startTime;
            if ok then Checked(Up, Some(latency), None, location)
            else Checked(Down, Some(latency), Some(code), location);
        Handling(Some(url.value), reply)
  }

  /** When the clock does not run backwards, a measured latency is never negative. */
  lemma LatencyNonNegative(body: RequestBody, headers: EdgeHeaders, fetch: FetchResult, startTime: int, endTime: int)
    requires startTime <= endTime
    ensures var r := Handle(body, headers, fetch, startTime, endTime).reply;
            r.Checked? && r.latency.Some? ==> r.latency.value >= 0
  {
  }

  /** Two headers present, one missing: the label skips the missing one. */
  lemma LabelSkipsMissingRegion()
    ensures LocationLabel(EdgeHeaders(Some("Jakarta"), None, Some("ID"))) == "Jakarta, ID"
  {
    assert NonEmptyParts(["Jakarta", "", "ID"]) == ["Jakarta", "ID"];
  }

  /** A repeated value is kept as often as it occurs. */
  lemma LabelKeepsRepeats()
    ensures LocationLabel(EdgeHeaders(Some("X"), None, Some("X"))) == "X, X"
  {
    assert NonEmptyParts(["X", "", "X"]) == ["X", "X"];
  }
}
