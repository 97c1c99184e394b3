/** The JavaScript built-ins the proxy calls but whose internals are not part
    of this model: floating-point parsing and `Date` parsing/formatting. They
    are gathered in a `Host` value that every operation receives, so each
    property is proved for every possible behaviour of these built-ins. */
module JsHost {
  import opened Optional

  /** A JavaScript number as `Number.parseFloat` can return it. */
  datatype JsNumber = Finite(value: real) | PositiveInfinity | NegativeInfinity | NaN

  /** `Number.isFinite` on the result of a parse, as an optional value:
      `Some(v)` for a finite number, `None` for NaN and the infinities. */
  function FiniteValue(n: JsNumber): (r: Option<real>)
    ensures r.Some? <==> n.Finite?
    ensures r.Some? ==> n == Finite(r.value)
  {
    if n.Finite? then Some(n.value) else None
  }

  /** - `parseFloat`: `Number.parseFloat`, which reads the longest numeric
        prefix after leading whitespace (so it is not a strict validator);
      - `parseDate`: `new Date(text).getTime()` in milliseconds since the
        epoch, `None` when the result is NaN (an Invalid Date);
      - `toIsoString`: `Date.prototype.toISOString` of a millisecond instant. */
  datatype Host = Host(
    parseFloat: string -> JsNumber,
    parseDate: string -> Option<int>,
    toIsoString: int -> string)

  /** The host's date formatter and parser agree on instant `t`: parsing the
      ISO text of `t` gives `t` back. */
  predicate IsoRoundTrips(host: Host, t: int) {
    host.parseDate(host.toIsoString(t)) == Some(t)
  }
}
