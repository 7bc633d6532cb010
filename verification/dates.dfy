/** JavaScript `Date` values as integer milliseconds since the epoch, and the ISO 8601
    conversions the app uses, kept abstract. */
module Dates {

  /** A `Date` object: a time value in milliseconds, or an Invalid Date (what
      `new Date(s)` gives for a string it cannot read). */
  datatype Date = Date(ms: int) | InvalidDate

  /** The platform's ISO conversions: `format` is `Date.prototype.toISOString`, and
      `parse` is `new Date(string)`. */
  datatype IsoCodec = IsoCodec(format: int -> string, parse: string -> Date)

  /** `new Date(d.toISOString())` gives the same time back. */
  ghost predicate Invertible(c: IsoCodec) {
    forall ms: int :: c.parse(c.format(ms)) == Date(ms)
  }
}
