/**
 * Number and string formatting done by Python's format mini-language, `round` and `repr`.
 * The model leaves them uninterpreted: every operation that formats receives them as a value,
 * and every property proved holds for whatever formatting functions are supplied.
 */
module Format {

  datatype Formats = Formats(
    fixed: (real, nat) -> string,    // f"{x:.{n}f}"
    roundTo: (real, nat) -> real,    // round(x, n)
    roundInt: real -> int,           // round(x)
    show: real -> string,            // str(x) of a float
    quote: string -> string          // repr(s) of a str
  )

  /** What `str` of a float always is: a non-empty text with no closing brace and no newline. */
  predicate PlainNumeral(s: string) {
    s != [] && '}' !in s && '\n' !in s
  }

  ghost predicate ShowsPlainNumerals(f: Formats) {
    forall x: real :: PlainNumeral(f.show(x))
  }
}
