/** The third-party code the clinic API calls, taken as given total
    functions.  Nothing is assumed about them beyond their types; where a
    property of the clinic code needs a fact about one of them (bcrypt
    accepting the password it hashed, say), the lemma states that fact as a
    precondition. */
module Oracles {
  import opened Common

  /** String-level helpers of express-validator / validator.js, sanitize-html
      and the JavaScript `Date` constructor. */
  datatype Lib = Lib(
    /** validator.js `isEmail` with its default options. */
    isEmail: string -> bool,
    /** express-validator `normalizeEmail` sanitizer. */
    normalizeEmail: string -> string,
    /** validator.js `isISO8601` with its default options. */
    isISO8601: string -> bool,
    /** validator.js `isURL` with its default options. */
    isURL: string -> bool,
    /** validator.js `escape`: HTML-entity encoding of `<>&'"/`. */
    escape: string -> string,
    /** `sanitizeHtml(v, {allowedTags: [], allowedAttributes: {}})`. */
    stripTags: string -> string,
    /** `new Date(s).getTime()` in milliseconds, `None` for an Invalid Date. */
    parseDate: string -> Option<int>,
    /** The local calendar day of an instant, as `toDateString` renders it. */
    dayOf: int -> int
  )

  /** `new Date(a) <= t` where `t` is a valid instant: a comparison with an
      Invalid Date (NaN) is false. */
  predicate AtOrBefore(a: Option<int>, t: int)
  {
    a.Some? && a.value <= t
  }

  /** `new Date(a) >= t` with the same NaN rule. */
  predicate AtOrAfter(a: Option<int>, t: int)
  {
    a.Some? && a.value >= t
  }

  /** `new Date(a) <= new Date(b)`: false when either side is NaN. */
  predicate NotAfter(a: Option<int>, b: Option<int>)
  {
    a.Some? && b.Some? && a.value <= b.value
  }
}
