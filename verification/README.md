# Codec input and output shaping of the chefsgo builtin plugin

The builtin plugin registers named codecs with the chef host framework. Nearly all of
their work is done by libraries: Go's Base64 coders, a hashids digit coder, and the JSON,
XML and gob serialisers. This project models the logic the plugin adds around those calls.

- The Encode and Decode closures in `codec.go`:
  - the byte-slice guard of `json`, `xml` and `gob` Decode;
  - `base64` and `string`, which stringify their input;
  - `strings`, which joins with `"\n"` and splits on it;
  - `number` and `numbers`, which turn a dynamic input into a list of int64 for the digit coder.
- `anyToString` in `util.go`: the universal stringification the text-family codecs use.

Every library call is an opaque function held in a datatype that the operations take as a
parameter: `Codec.Libraries` and `Util.Formatting`. Two pieces of Go's standard library
carry properties the codecs rely on, so they are defined here:

- `strconv.FormatInt`/`ParseInt` in base 10, in module `Decimal`;
- `strings.Join`/`Split` with `"\n"`, in module `Lines`.

Go's dynamically typed `Any` is the closed datatype `Values.Value`, with one constructor
per case of the type switches; the seven remaining slice types (`[]int8` ... `[]Any`) share
`OtherList` under a `SliceKind` tag, and every other Go value is `Other`. A Go `(T, error)` pair is `Wrappers.Result`.

Modules: `Wrappers`, `Values`, `Decimal`, `Lines`, `Util` (util.go), `Codec` (codec.go).

Facts about the registered codecs that the model keeps:

- The codecs are registered as `string`, `strings`, `number` and `numbers`, with no aliases.
- `base64` uses `base64.StdEncoding` both ways.
- Only `json`, `xml` and `gob` Decode check `data`. The text-family decoders read their
  text from `value`.

## Model

| member | source | states |
|---|---|---|
| `Decimal.FormatDecimal` | util.go:138-141 | integers render as canonical decimal text: an optional '-' exactly when negative, then digits with no leading zero |
| `Decimal.FormatParseRoundTrip` | util.go:138-141 | parsing the rendered text in base 10, as `number` Encode does, gives back the same int64 |
| `Decimal.ParseDecimal` | codec.go:160 | Some exactly when the text is an optional '+' or '-' followed by one or more ASCII digits (no underscores) whose value lies within int64 (down to -2^63 after a '-'), and None otherwise; the result is negative only after a '-' and its magnitude is the number the digits denote |
| `Decimal.DigitsValueBound` | codec.go:200 | a text of k digits denotes less than 10^k, so any text of at most 18 digits is within int64 |
| `Decimal.ParseFormatRoundTrip` | codec.go:160 | on canonical text, parsing and then rendering gives back the text, so render and parse are inverse bijections between int64 and canonical strings |
| `Decimal.ParseDecimalEdgeCases` | codec.go:159-164 | the base-10 parse rejects "", a lone sign, underscores and spaces; it accepts a '+' sign, leading zeros and "-0" |
| `Lines.Join` | codec.go:135 | the elements with "\n" between each two: "" for the empty list, the element itself for one element |
| `Lines.JoinNewlines` | codec.go:134-135 | a join of a non-empty list holds the elements' own newlines plus one between each two elements |
| `Lines.NewlinesInElementsSplit` | codec.go:134-147 | splitting a join gives one element more per newline inside the elements, so the length is kept exactly when no element holds a newline |
| `Lines.Split` | codec.go:147 | splitting on "\n" gives one more piece than there are newlines, and no piece holds a newline |
| `Lines.JoinSplit` | codec.go:147 | joining the pieces of any text with "\n" restores the text |
| `Lines.SplitJoin` | codec.go:134-135 | splitting a join gives back every non-empty list whose elements hold no newline |
| `Lines.EmptyListSplitsToOneLine` | codec.go:134-135 | the empty list joins to "" and comes back as [""] |
| `Lines.NewlineInElementSplits` | codec.go:135 | for example, `["a\nb"]` comes back as `["a", "b"]` |
| `Util.AnyToString` | util.go:133-170 | strings pass through unchanged; int and int64 render as canonical decimal text that parses back to the value; bools render as exactly "true"/"false"; Map gives its JSON or "{}", []Map and the listed slices give their JSON or "[]"; anything else goes to the generic formatter; total, with no error result |
| `Codec.JsonDecode` | codec.go:44-53 | errInvalidData exactly when `data` is not a byte slice; on success the result is the target `value` itself; an unmarshal error is passed on |
| `Codec.XmlDecode` | codec.go:61-70 | errInvalidData exactly when `data` is not a byte slice; on success the result is the target `value` itself; an unmarshal error is passed on |
| `Codec.GobDecode` | codec.go:84-96 | errInvalidData exactly when `data` is not a byte slice; on success the result is the target `value` itself; a decoder error is passed on |
| `Codec.Base64Encode` | codec.go:101-104 | never fails; a string input is encoded as it is |
| `Codec.Base64Decode` | codec.go:105-112 | a string `value` is decoded as it is; the only errors are the coder's own |
| `Codec.Base64RoundTrip` | codec.go:99-113 | for a coder that inverts itself on the text, decoding the token gives back the input's stringification |
| `Codec.StringEncode` | codec.go:117-120 | never fails; a string input is encoded as it is |
| `Codec.StringDecode` | codec.go:121-128 | a string `value` is decoded as it is; the only errors are the coder's own |
| `Codec.StringRoundTrip` | codec.go:115-129 | for a coder that inverts itself on the text, decoding the token gives back the input's stringification |
| `Codec.StringsEncode` | codec.go:132-140 | never fails; a []string is encoded as its newline join, and any other input exactly as the `string` codec encodes it |
| `Codec.StringsDecode` | codec.go:141-148 | succeeds exactly when `string` Decode does; the pieces join back to that decoded text, there is at least one, and none holds a newline; an error is the coder's own |
| `Codec.StringsRoundTrip` | codec.go:130-149 | a non-empty []string whose elements hold no newline comes back unchanged |
| `Codec.StringsEmptyListRoundTrip` | codec.go:133-147 | the empty []string comes back as [""] |
| `Codec.NumberArgument` | codec.go:154-167 | accepted exactly for int, int64 and base-10 int64 strings; the number is the one the input's text parses to; everything else is "无效数字" |
| `Codec.NumberEncode` | codec.go:153-169 | a rejected input gives "无效数字" without reaching the digit coder; an accepted one hands the coder the one-element list of its number |
| `Codec.NumberDecode` | codec.go:170-180 | the first element of the list `numbers` Decode gives; "无效结果" exactly when that list is empty; coder errors pass through unchanged |
| `Codec.NumberRoundTrip` | codec.go:151-181 | for a coder that inverts itself on the list, the token decodes to the input's number |
| `Codec.NumbersArgument` | codec.go:186-207 | []int and []int64 are copied element by element, keeping length and order; a scalar gives the one-element list `number` would encode; every other input is "无效数字" |
| `Codec.NumbersEncode` | codec.go:185-209 | a []int or []int64 goes to the digit coder unchanged; on every other input the result equals `number` Encode's |
| `Codec.NumbersDecode` | codec.go:210-213 | a string `value` is decoded as it is; the only errors are the coder's own |
| `Codec.NumbersRoundTrip` | codec.go:183-214 | for a coder that inverts itself on the list, a []int or []int64 comes back with the same length, order and contents, and an int, int64 or base-10 string comes back as the one-element list of its number |
| `Codec.TextFamilyReadsValueText` | codec.go:105-213 | the base64 and string encoders, and strings Encode on anything but a []string, give a value and its `anyToString` text the same token; all five text-family decoders (base64, string, strings, number, numbers) read their text from `value` through `anyToString` and never look at `data`; the number and numbers encoders switch on the Go type instead |

## Left out

- The Base64 coders (`base64.StdEncoding` and the configured-alphabet `textCoder`, Base64 as in section 4 of RFC 4648): they are library code, modelled as an opaque encode/decode pair. Round trips are stated for coders that invert themselves on the text in question.
- The hashids digit coder: a library, modelled as an opaque encode/decode pair. The error that its construction ignores (codec.go:28) is not modelled; the model assumes a working coder.
- `json`, `xml` and `gob` Encode (codec.go:41-43, 58-60, 75-83), including gob's `bytes.Buffer`: each is one call of a library serialiser whose bytes and error are returned unchanged, so there is no logic of this repository in them.
- The effect of Unmarshal writing into the target through its pointer: the model returns the target unchanged and treats the unmarshaller as an opaque function that reports success or an error.
- `gob.Register` and `chef.Register`, together with the codecs' display names and descriptions: host-framework side effects.
- The regular-expression table in regular.go: static data, matched by Go's regexp engine.
- `password`, `sha1String`, `md5String`, `sha1File` and `md5File` (util.go:17-61): wrappers over hash libraries and file I/O.
- The commented-out helpers in util.go:63-131: dead code.
- `chef.MarshalJSON` and `fmt.Sprintf("%v")` in `anyToString`: foreign formatters, passed in as opaque functions. Only the fallback to "{}" or "[]" is modelled.
- Go's `int` is taken to be 64 bits wide, so `int64(v)` on an `int` is the identity. On a 32-bit platform the values would be a subrange, and the conversion would still not change them.
- Go strings are modelled as sequences of characters, not of UTF-8 bytes. The `[]byte(text)` and `string(bytes)` conversions are folded into the opaque coders. Splitting on "\n" gives the same pieces either way, because UTF-8 never uses that byte inside a multi-byte character.
- The placeholder value returned beside an error (`""` or `nil`) is not modelled: a failure is `Err` alone.
- `Decimal.ParseDecimal`: it merges `strconv.ParseInt`'s syntax error and range error into one `None`. The codecs do not tell them apart.
