/**
 * `anyToString` from util.go: the stringification the text-family codecs apply to
 * their input. It is total over every shape of `Value` and never reports an error.
 */
module Util {
  import opened Wrappers
  import opened Values
  import Decimal

  /**
   * The two foreign formatters `anyToString` calls: the host's JSON marshaller
   * (`chef.MarshalJSON`, None when it fails) and Go's generic `%v` formatter.
   */
  datatype Formatting = Formatting(marshalJSON: Value -> Option<string>, formatDefault: Value -> string)

  /** The rendering of a bool by `strconv.FormatBool`. */
  function BoolText(b: bool): string {
    if b then "true" else "false"
  }

  /**
   * Strings pass through; `int` and `int64` render in base 10 so that the base-10 parse
   * gives them back; booleans render as "true"/"false"; maps and the listed slice types
   * render as JSON, falling back to "{}" for a Map and "[]" for the slices; everything
   * else goes to the generic formatter.
   */
  function AnyToString(f: Formatting, v: Value): (r: string)
    ensures v.Str? ==> r == v.s
    ensures v.Int? || v.Int64? ==> Decimal.Canonical(r) && Decimal.ParseDecimal(r) == Some(v.i)
    ensures v.Bool? ==> (r == "true" <==> v.b) && (r == "false" <==> !v.b)
    ensures v.Map? ==> r == (if f.marshalJSON(v).Some? then f.marshalJSON(v).value else "{}")
    ensures v.IsList() ==> r == (if f.marshalJSON(v).Some? then f.marshalJSON(v).value else "[]")
    ensures v.Bytes? || v.Other? ==> r == f.formatDefault(v)
  {
    match v
    case Str(s) => s
    case Int(i) => Decimal.FormatParseRoundTrip(i); Decimal.FormatDecimal(i)
    case Int64(i) => Decimal.FormatParseRoundTrip(i); Decimal.FormatDecimal(i)
    case Bool(b) => BoolText(b)
    case Map(_) => JsonOr(f, v, "{}")
    case MapList(_) => JsonOr(f, v, "[]")
    case IntList(_) => JsonOr(f, v, "[]")
    case Int64List(_) => JsonOr(f, v, "[]")
    case StringList(_) => JsonOr(f, v, "[]")
    case OtherList(_, _) => JsonOr(f, v, "[]")
    case Bytes(_) => f.formatDefault(v)
    case Other(_) => f.formatDefault(v)
  }

  /** The JSON text of `v`, or `fallback` when marshalling fails. */
  function JsonOr(f: Formatting, v: Value, fallback: string): string {
    match f.marshalJSON(v)
    case Some(d) => d
    case None => fallback
  }
}
