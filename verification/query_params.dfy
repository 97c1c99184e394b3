/** Query-window validation of the schedule proxy, `sanitizeParams`
    (src/pages/api/schedule.ts:262-303). Instants are integer milliseconds
    since the epoch; the host's `Date` parser and ISO formatter are
    parameters, and the clock reading only feeds the defaults. */
module QueryParams {
  import opened Optional
  import opened JsHost
  import opened ScheduleTypes

  const DayMs := 24 * 60 * 60 * 1000
  const MaxWindowDays := 14

  /** A decoded query string: its `name=value` pairs in order. */
  type Query = seq<(string, string)>

  /** `URLSearchParams.get`: the value of the first pair called `name`. */
  function QueryGet(q: Query, name: string): (r: Option<string>)
    ensures r.None? <==> forall k :: 0 <= k < |q| ==> q[k].0 != name
    ensures r.Some? ==> exists k :: 0 <= k < |q| && q[k] == (name, r.value) && forall j :: 0 <= j < k ==> q[j].0 != name
    decreases |q|
  {
    if |q| == 0 then None
    else if q[0].0 == name then Some(q[0].1)
    else
      var r := QueryGet(q[1..], name);
      assert forall k :: 1 <= k < |q| ==> q[k] == q[1..][k - 1];
      if r.Some? then
        assert exists k :: 0 <= k < |q| && q[k] == (name, r.value) && forall j :: 0 <= j < k ==> q[j].0 != name by {
          var k :| 0 <= k < |q[1..]| && q[1..][k] == (name, r.value) && forall j :: 0 <= j < k ==> q[1..][j].0 != name;
          assert q[k + 1] == (name, r.value);
        }
        r
      else r
  }

  /** `Date.UTC` of the current UTC calendar day: midnight at or before
      `now`. */
  function UtcDayStart(now: int): (r: int)
    ensures r <= now < r + DayMs
    ensures r % DayMs == 0
  {
    now - now % DayMs
  }

  datatype ParamError = InvalidDate | ToNotAfterFrom | RangeTooLarge {
    /** The `error` text of the 400 response. */
    function Message(): string {
      match this
      case InvalidDate => "Invalid date range supplied."
      case ToNotAfterFrom => "`to` must be later than `from`."
      case RangeTooLarge => "Date range cannot exceed 14 days."
    }
  }

  /** The three checks of `sanitizeParams`, in the source's order, on the
      parsed instants: both must parse, `to` must be later than `from`, and
      the span in days, `(to - from) / 86400000` computed as a real number,
      must not exceed 14. */
  function CheckWindow(from: Option<int>, to: Option<int>): (r: Result<(int, int), ParamError>)
    ensures r == Failure(InvalidDate) <==> from.None? || to.None?
    ensures r == Failure(ToNotAfterFrom) <==> from.Some? && to.Some? && to.value <= from.value
    ensures r == Failure(RangeTooLarge) <==>
      from.Some? && to.Some? && from.value < to.value && to.value - from.value > MaxWindowDays * DayMs
    ensures r.Success? ==> r.value == (from.value, to.value)
    ensures r.Success? ==> from.value < to.value <= from.value + MaxWindowDays * DayMs
  {
    if from.None? || to.None? then Failure(InvalidDate)
    else if to.value <= from.value then Failure(ToNotAfterFrom)
    else if (to.value - from.value) as real / DayMs as real > MaxWindowDays as real then Failure(RangeTooLarge)
    else Success((from.value, to.value))
  }

  /** The `from` text: the query's, even when empty, or else the ISO text of
      today's UTC midnight. */
  function FromText(host: Host, q: Query, now: int): (r: string)
    ensures QueryGet(q, "from").Some? ==> r == QueryGet(q, "from").value
    ensures QueryGet(q, "from").None? ==>
      exists t :: r == host.toIsoString(t) && t % DayMs == 0 && t <= now < t + DayMs
  {
    QueryGet(q, "from").GetOr(host.toIsoString(UtcDayStart(now)))
  }

  /** The `to` text: the query's, even when empty, or else the ISO text of
      the NEXT UTC midnight, whatever `from` is. */
  function ToText(host: Host, q: Query, now: int): (r: string)
    ensures QueryGet(q, "to").Some? ==> r == QueryGet(q, "to").value
    ensures QueryGet(q, "to").None? ==>
      exists t :: r == host.toIsoString(t) && t % DayMs == 0 && now < t <= now + DayMs
  {
    QueryGet(q, "to").GetOr(host.toIsoString(UtcDayStart(now) + DayMs))
  }

  /** `x || undefined` on an optional string: an empty value is dropped. */
  function NonEmpty(v: Option<string>): (r: Option<string>)
    ensures r.Some? <==> v.Some? && v.value != []
    ensures r.Some? ==> r == v
  {
    if v.Some? && v.value != [] then v else None
  }

  /** `sanitizeParams`. On success the window runs from the parsed `from` to
      the parsed `to`, strictly increasing and at most 14 days long, and is
      returned as the host's canonical ISO texts; a non-empty `programId` or
      `coachId` is passed through and an empty or absent one is dropped. It
      fails when either side does not parse, then when `to` is not later
      than `from`, then when the span exceeds 14 days. */
  function SanitizeParams(host: Host, q: Query, now: int): (r: Result<ScheduleQueryParams, ParamError>)
    ensures var f := host.parseDate(FromText(host, q, now));
      var t := host.parseDate(ToText(host, q, now));
      && (r == Failure(InvalidDate) <==> f.None? || t.None?)
      && (r == Failure(ToNotAfterFrom) <==> f.Some? && t.Some? && t.value <= f.value)
      && (r == Failure(RangeTooLarge) <==>
            f.Some? && t.Some? && f.value < t.value && t.value - f.value > MaxWindowDays * DayMs)
      && (r.Success? ==>
            && f.Some? && t.Some?
            && f.value < t.value <= f.value + MaxWindowDays * DayMs
            && r.value.from == host.toIsoString(f.value)
            && r.value.to == host.toIsoString(t.value))
    ensures r.Success? ==> r.value.programId == NonEmpty(QueryGet(q, "programId"))
    ensures r.Success? ==> r.value.coachId == NonEmpty(QueryGet(q, "coachId"))
  {
    match CheckWindow(host.parseDate(FromText(host, q, now)), host.parseDate(ToText(host, q, now)))
    case Failure(e) => Failure(e)
    case Success((f, t)) =>
      Success(ScheduleQueryParams(
        host.toIsoString(f),
        host.toIsoString(t),
        NonEmpty(QueryGet(q, "programId")),
        NonEmpty(QueryGet(q, "coachId"))))
  }

  /** The query that asks again for a sanitized window. */
  function EchoQuery(p: ScheduleQueryParams): Query {
    [("from", p.from), ("to", p.to)]
      + (if p.programId.Some? then [("programId", p.programId.value)] else [])
      + (if p.coachId.Some? then [("coachId", p.coachId.value)] else [])
  }

  /** Reading the echoed query gives back every parameter it was built from. */
  lemma EchoReadsBack(p: ScheduleQueryParams)
    requires p.programId.Some? ==> p.programId.value != []
    requires p.coachId.Some? ==> p.coachId.value != []
    ensures QueryGet(EchoQuery(p), "from") == Some(p.from)
    ensures QueryGet(EchoQuery(p), "to") == Some(p.to)
    ensures NonEmpty(QueryGet(EchoQuery(p), "programId")) == p.programId
    ensures NonEmpty(QueryGet(EchoQuery(p), "coachId")) == p.coachId
  {
    var e := EchoQuery(p);
    assert e[0] == ("from", p.from) && e[1] == ("to", p.to);
    if p.programId.Some? {
      assert e[2] == ("programId", p.programId.value);
    }
    if p.coachId.Some? {
      assert e[|e| - 1] == ("coachId", p.coachId.value);
    }
  }

  /** Sanitizing is idempotent: when the host's ISO texts parse back to the
      same instants, asking again with the sanitized parameters returns them
      unchanged, at any time. */
  lemma SanitizeIdempotent(host: Host, q: Query, now: int, later: int)
    requires SanitizeParams(host, q, now).Success?
    requires IsoRoundTrips(host, host.parseDate(FromText(host, q, now)).value)
    requires IsoRoundTrips(host, host.parseDate(ToText(host, q, now)).value)
    ensures SanitizeParams(host, EchoQuery(SanitizeParams(host, q, now).value), later)
         == SanitizeParams(host, q, now)
  {
    EchoReadsBack(SanitizeParams(host, q, now).value);
  }

  /** With neither bound given, the window is today's UTC day, provided the
      host parses its own ISO texts back. */
  lemma DefaultWindow(host: Host, q: Query, now: int)
    requires QueryGet(q, "from").None? && QueryGet(q, "to").None?
    requires IsoRoundTrips(host, UtcDayStart(now)) && IsoRoundTrips(host, UtcDayStart(now) + DayMs)
    ensures SanitizeParams(host, q, now).Success?
    ensures SanitizeParams(host, q, now).value.from == host.toIsoString(UtcDayStart(now))
    ensures SanitizeParams(host, q, now).value.to == host.toIsoString(UtcDayStart(now) + DayMs)
  {
  }

  /** A missing `to` defaults to the next UTC midnight even when `from` is
      given, so any given `from` at or after that midnight is rejected as
      not earlier than `to`. */
  lemma MissingToIgnoresFrom(host: Host, q: Query, now: int)
    requires QueryGet(q, "to").None?
    requires IsoRoundTrips(host, UtcDayStart(now) + DayMs)
    requires host.parseDate(FromText(host, q, now)).Some?
    requires host.parseDate(FromText(host, q, now)).value >= UtcDayStart(now) + DayMs
    ensures SanitizeParams(host, q, now) == Failure(ToNotAfterFrom)
  {
  }
}
