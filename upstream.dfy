/**
 * The shapes of what the weather service sends back, as far as the search
 * workflow of the dashboard looks at them. Network access itself is not part
 * of the model: every request is represented by the reply it produced, or by
 * the fact that it threw.
 */
module Upstream {

  datatype Option<+T> = None | Some(value: T)

  /** A JSON number copied from a reply into the display state. It is kept as
      its literal text and never interpreted (temperatures, humidities, wind
      speeds and coordinates are only passed through). */
  datatype Number = Number(literal: string)

  /** The `cod` field of a current-weather reply. The service sends the number
      200 on success and a string such as "404" on failure; the field may also
      be missing altogether. */
  datatype Cod = CodNumber(n: int) | CodString(s: string) | CodMissing

  /** The success test `data.cod !== 200` is a strict comparison: only the
      number 200 passes, the string "200" does not. */
  predicate StatusOk(cod: Cod)
  {
    cod.CodNumber? && cod.n == 200
  }

  /** A current-weather reply, stored wholesale as the displayed weather. */
  datatype Current = Current(
    cod: Cod,
    name: string,
    message: string,
    description: string,
    icon: string,
    temp: Number,
    humidity: Number,
    windSpeed: Number)

  /** One entry of the 3-hourly forecast feed. */
  datatype Entry = Entry(dtTxt: string, temp: Number)

  /** A forecast reply: either it has no `list` field (it is falsy) or it has one. */
  datatype ForecastReply = ForecastMissing | ForecastList(list: seq<Entry>)

  /** The outcome of one request: a parsed reply, or an exception thrown by
      `fetch` or by decoding the body. */
  datatype Fetched<+T> = Replied(body: T) | Threw

  /** The current-weather step succeeded: a reply came back with status 200. */
  predicate CurrentOk(current: Fetched<Current>)
  {
    current.Replied? && StatusOk(current.body.cod)
  }
}
