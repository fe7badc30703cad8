/**
 * The Encode and Decode closures codec.go registers, with every library call they make
 * (the Base64 coders, the hashids digit coder, the JSON/XML/gob unmarshallers and the
 * formatters behind `anyToString`) passed in as an opaque function.
 */
module Codec {
  import opened Wrappers
  import opened Values
  import Decimal
  import Lines
  import opened Util

  /** An error reported by a library the codecs call; the codecs pass it on unchanged. */
  datatype LibraryError = LibraryError(message: string)

  /** The errors a codec returns. */
  datatype Error =
    | InvalidData                   // errInvalidData
    | InvalidNumber                 // the input is not a number
    | InvalidResult                 // the digit coder decoded no number
    | Library(cause: LibraryError)  // a library's own error
  {
    /** The text of the Go error value. */
    function Message(): string {
      match this
      case InvalidData => "Invalid data."
      case InvalidNumber => "无效数字"
      case InvalidResult => "无效结果"
      case Library(cause) => cause.message
    }
  }

  /**
   * A Base64 coder (section 4 of RFC 4648) over a fixed alphabet, as Go's
   * `base64.Encoding` provides it: EncodeToString and DecodeString.
   */
  datatype TextCoder = TextCoder(encode: string -> string, decode: string -> Result<string, LibraryError>)

  /** The hashids coder: EncodeInt64 and DecodeInt64WithError. */
  datatype DigitCoder = DigitCoder(
    encode: seq<int64> -> Result<string, LibraryError>,
    decode: string -> Result<seq<int64>, LibraryError>)

  /** A serialiser's Unmarshal into a target value: Some(error) when it fails. */
  datatype Serializer = Serializer(unmarshal: (seq<byte>, Value) -> Option<LibraryError>)

  /** Everything the closures call but this repository does not implement. */
  datatype Libraries = Libraries(
    std: TextCoder,      // base64.StdEncoding
    text: TextCoder,     // textCoder, over the configured string alphabet
    digits: DigitCoder,  // digitCoder, with the configured alphabet, salt and minimum length
    json: Serializer,
    xml: Serializer,
    gob: Serializer,
    format: Formatting)  // the formatters anyToString calls

  /** A library's result with its error passed on as the codec's. */
  function PassOn<T>(r: Result<T, LibraryError>): Result<T, Error> {
    match r
    case Ok(v) => Ok(v)
    case Err(e) => Err(Library(e))
  }

  /** The coder round-trips the list `ns`. */
  predicate Inverts(c: DigitCoder, ns: seq<int64>) {
    c.encode(ns).Ok? && c.decode(c.encode(ns).value) == Ok(ns)
  }

  // ---------------------------------------------------------------- json, xml, gob

  /** `json` Decode: only a byte slice is unmarshalled; the result is the target itself. */
  function JsonDecode(lib: Libraries, data: Value, value: Value): (r: Result<Value, Error>)
    ensures r == Err(InvalidData) <==> !data.Bytes?
    ensures r.Ok? ==> r.value == value
    ensures data.Bytes? ==> (r.Ok? <==> lib.json.unmarshal(data.bytes, value).None?)
    ensures data.Bytes? && r.Err? ==> r.error == Library(lib.json.unmarshal(data.bytes, value).value)
  {
    match data
    case Bytes(bytes) =>
      (match lib.json.unmarshal(bytes, value)
       case Some(e) => Err(Library(e))
       case None => Ok(value))
    case _ => Err(InvalidData)
  }

  /** `xml` Decode: only a byte slice is unmarshalled; the result is the target itself. */
  function XmlDecode(lib: Libraries, data: Value, value: Value): (r: Result<Value, Error>)
    ensures r == Err(InvalidData) <==> !data.Bytes?
    ensures r.Ok? ==> r.value == value
    ensures data.Bytes? ==> (r.Ok? <==> lib.xml.unmarshal(data.bytes, value).None?)
    ensures data.Bytes? && r.Err? ==> r.error == Library(lib.xml.unmarshal(data.bytes, value).value)
  {
    match data
    case Bytes(dataBytes) =>
      (match lib.xml.unmarshal(dataBytes, value)
       case Some(e) => Err(Library(e))
       case None => Ok(value))
    case _ => Err(InvalidData)
  }

  /** `gob` Decode: only a byte slice is decoded; the result is the target itself. */
  function GobDecode(lib: Libraries, data: Value, value: Value): (r: Result<Value, Error>)
    ensures r == Err(InvalidData) <==> !data.Bytes?
    ensures r.Ok? ==> r.value == value
    ensures data.Bytes? ==> (r.Ok? <==> lib.gob.unmarshal(data.bytes, value).None?)
    ensures data.Bytes? && r.Err? ==> r.error == Library(lib.gob.unmarshal(data.bytes, value).value)
  {
    match data
    case Bytes(dataBytes) =>
      (match lib.gob.unmarshal(dataBytes, value)
       case Some(e) => Err(Library(e))
       case None => Ok(value))
    case _ => Err(InvalidData)
  }

  // ---------------------------------------------------------------- base64, string

  /** `base64` Encode: the standard Base64 text of the input's stringification; never fails. */
  function Base64Encode(lib: Libraries, value: Value): (r: Result<string, Error>)
    ensures r.Ok?
    ensures value.Str? ==> r.value == lib.std.encode(value.s)
  {
    var text := AnyToString(lib.format, value);
    Ok(lib.std.encode(text))
  }

  /** `base64` Decode: decodes the stringification of `value`; `data` is not looked at. */
  function Base64Decode(lib: Libraries, data: Value, value: Value): (r: Result<string, Error>)
    ensures r.Err? ==> r.error.Library?
    ensures value.Str? ==> r == PassOn(lib.std.decode(value.s))
  {
    var text := AnyToString(lib.format, value);
    PassOn(lib.std.decode(text))
  }

  /** A `base64` token decodes to the text the input was stringified to. */
  lemma Base64RoundTrip(lib: Libraries, data: Value, value: Value)
    requires var t := AnyToString(lib.format, value); lib.std.decode(lib.std.encode(t)) == Ok(t)
    ensures Base64Decode(lib, data, Str(Base64Encode(lib, value).value)) == Ok(AnyToString(lib.format, value))
  {
  }

  /** `string` Encode: the custom-alphabet Base64 text of the input's stringification; never fails. */
  function StringEncode(lib: Libraries, value: Value): (r: Result<string, Error>)
    ensures r.Ok?
    ensures value.Str? ==> r.value == lib.text.encode(value.s)
  {
    var text := AnyToString(lib.format, value);
    Ok(lib.text.encode(text))
  }

  /** `string` Decode: decodes the stringification of `value`; `data` is not looked at. */
  function StringDecode(lib: Libraries, data: Value, value: Value): (r: Result<string, Error>)
    ensures r.Err? ==> r.error.Library?
    ensures value.Str? ==> r == PassOn(lib.text.decode(value.s))
  {
    var text := AnyToString(lib.format, value);
    PassOn(lib.text.decode(text))
  }

  /** A `string` token decodes to the text the input was stringified to. */
  lemma StringRoundTrip(lib: Libraries, data: Value, value: Value)
    requires var t := AnyToString(lib.format, value); lib.text.decode(lib.text.encode(t)) == Ok(t)
    ensures StringDecode(lib, data, Str(StringEncode(lib, value).value)) == Ok(AnyToString(lib.format, value))
  {
  }

  // ---------------------------------------------------------------- strings

  /**
   * `strings` Encode: a `[]string` is joined with newlines, any other input is
   * stringified, and the text is encoded with the custom alphabet; never fails.
   */
  function StringsEncode(lib: Libraries, value: Value): (r: Result<string, Error>)
    ensures r.Ok?
    ensures value.StringList? ==> r.value == lib.text.encode(Lines.Join(value.strs))
    ensures !value.StringList? ==> r == StringEncode(lib, value)
  {
    var text := if value.StringList? then Lines.Join(value.strs) else AnyToString(lib.format, value);
    Ok(lib.text.encode(text))
  }

  /**
   * `strings` Decode: the decoded text split on newlines. The pieces join back to the
   * decoded text, there is at least one, and none holds a newline.
   */
  function StringsDecode(lib: Libraries, data: Value, value: Value): (r: Result<seq<string>, Error>)
    ensures r.Ok? <==> StringDecode(lib, data, value).Ok?
    ensures r.Ok? ==> Lines.Join(r.value) == StringDecode(lib, data, value).value
    ensures r.Ok? ==> |r.value| >= 1 && forall k :: 0 <= k < |r.value| ==> '\n' !in r.value[k]
    ensures r.Err? ==> r.error == StringDecode(lib, data, value).error
  {
    var text := AnyToString(lib.format, value);
    match lib.text.decode(text)
    case Err(e) => Err(Library(e))
    case Ok(bytes) =>
      Lines.JoinSplit(bytes);
      Ok(Lines.Split(bytes))
  }

  /** A `[]string` without newlines in its elements survives the `strings` codec. */
  lemma StringsRoundTrip(lib: Libraries, data: Value, xs: seq<string>)
    requires xs != [] && forall k :: 0 <= k < |xs| ==> '\n' !in xs[k]
    requires lib.text.decode(lib.text.encode(Lines.Join(xs))) == Ok(Lines.Join(xs))
    ensures StringsDecode(lib, data, Str(StringsEncode(lib, StringList(xs)).value)) == Ok(xs)
  {
    Lines.SplitJoin(xs);
  }

  /** The empty `[]string` comes back from the `strings` codec as one empty string. */
  lemma StringsEmptyListRoundTrip(lib: Libraries, data: Value)
    requires lib.text.decode(lib.text.encode("")) == Ok("")
    ensures StringsDecode(lib, data, Str(StringsEncode(lib, StringList([])).value)) == Ok([""])
  {
    Lines.EmptyListSplitsToOneLine();
  }

  // ---------------------------------------------------------------- number

  /**
   * The integer `number` Encode hands to the digit coder: an `int` or `int64` input
   * itself, or a string that parses in base 10. It is the number whose decimal text
   * the input stringifies to. Every other input is InvalidNumber.
   */
  function NumberArgument(value: Value): (r: Result<int64, Error>)
    ensures r.Ok? <==> value.Int? || value.Int64? || (value.Str? && Decimal.ParseDecimal(value.s).Some?)
    ensures r.Ok? ==> forall f :: Decimal.ParseDecimal(AnyToString(f, value)) == Some(r.value)
    ensures r.Err? ==> r.error == InvalidNumber
  {
    match value
    case Int(vv) => Ok(vv)
    case Int64(vv) => Ok(vv)
    case Str(vv) =>
      (match Decimal.ParseDecimal(vv)
       case Some(v) => Ok(v)
       case None => Err(InvalidNumber))
    case _ => Err(InvalidNumber)
  }

  /**
   * `number` Encode: the one-element list of the input's integer goes to the digit
   * coder; an input that is not a number is rejected before the coder is reached.
   */
  function NumberEncode(lib: Libraries, value: Value): (r: Result<string, Error>)
    ensures NumberArgument(value).Err? ==> r == Err(InvalidNumber)
    ensures NumberArgument(value).Ok? ==> r == PassOn(lib.digits.encode([NumberArgument(value).value]))
  {
    match NumberArgument(value)
    case Err(e) => Err(e)
    case Ok(num) => PassOn(lib.digits.encode([num]))
  }

  /**
   * `number` Decode: the first number of what `numbers` Decode returns; InvalidResult
   * when that list is empty; a coder error is passed on unchanged.
   */
  function NumberDecode(lib: Libraries, data: Value, value: Value): (r: Result<int64, Error>)
    ensures NumbersDecode(lib, data, value).Err? ==> r == Err(NumbersDecode(lib, data, value).error)
    ensures NumbersDecode(lib, data, value) == Ok([]) <==> r == Err(InvalidResult)
    ensures NumbersDecode(lib, data, value).Ok? && NumbersDecode(lib, data, value).value != [] ==>
              r == Ok(NumbersDecode(lib, data, value).value[0])
  {
    var text := AnyToString(lib.format, value);
    match lib.digits.decode(text)
    case Err(e) => Err(Library(e))
    case Ok(digits) => if |digits| == 0 then Err(InvalidResult) else Ok(digits[0])
  }

  /** A `number` token decodes to the number the input denoted. */
  lemma NumberRoundTrip(lib: Libraries, data: Value, value: Value)
    requires NumberArgument(value).Ok? && Inverts(lib.digits, [NumberArgument(value).value])
    ensures NumberEncode(lib, value).Ok?
    ensures NumberDecode(lib, data, Str(NumberEncode(lib, value).value)) == Ok(NumberArgument(value).value)
  {
  }

  // ---------------------------------------------------------------- numbers

  /**
   * The list `numbers` Encode hands to the digit coder, built by appending: a `[]int`
   * or `[]int64` element by element, in order; a scalar the way `number` takes it.
   * Every other input is InvalidNumber.
   */
  method NumbersArgument(value: Value) returns (r: Result<seq<int64>, Error>)
    ensures value.IntList? || value.Int64List? ==> r == Ok(value.ints)
    ensures NumberArgument(value).Ok? ==> r == Ok([NumberArgument(value).value])
    ensures !value.IntList? && !value.Int64List? && NumberArgument(value).Err? ==> r == Err(InvalidNumber)
  {
    var nums: seq<int64> := [];
    if value.Int? {
      nums := nums + [value.i];
      assert nums == [NumberArgument(value).value];
    } else if value.Int64? {
      nums := nums + [value.i];
      assert nums == [NumberArgument(value).value];
    } else if value.IntList? {
      var vvs := value.ints;
      for k := 0 to |vvs|
        invariant nums == vvs[..k]
      {
        nums := nums + [vvs[k]];
      }
      assert vvs[..|vvs|] == vvs;
      assert NumberArgument(value).Err?;
    } else if value.Int64List? {
      var vvs := value.ints;
      for k := 0 to |vvs|
        invariant nums == vvs[..k]
      {
        nums := nums + [vvs[k]];
      }
      assert vvs[..|vvs|] == vvs;
      assert NumberArgument(value).Err?;
    } else if value.Str? {
      match Decimal.ParseDecimal(value.s)
      case Some(v) =>
        assert NumberArgument(value) == Ok(v);
        nums := nums + [v];
        assert nums == [NumberArgument(value).value];
      case None =>
        return Err(InvalidNumber);
    } else {
      return Err(InvalidNumber);
    }
    return Ok(nums);
  }

  /**
   * `numbers` Encode: a list input goes to the digit coder with its length and order
   * kept; on every other input it agrees with `number` Encode.
   */
  method NumbersEncode(lib: Libraries, value: Value) returns (r: Result<string, Error>)
    ensures value.IntList? || value.Int64List? ==> r == PassOn(lib.digits.encode(value.ints))
    ensures !value.IntList? && !value.Int64List? ==> r == NumberEncode(lib, value)
  {
    var nums := NumbersArgument(value);
    match nums
    case Err(e) =>
      return Err(e);
    case Ok(ns) =>
      return PassOn(lib.digits.encode(ns));
  }

  /** `numbers` Decode: the digit coder's list for the stringification of `value`. */
  function NumbersDecode(lib: Libraries, data: Value, value: Value): (r: Result<seq<int64>, Error>)
    ensures r.Err? ==> r.error.Library?
    ensures value.Str? ==> r == PassOn(lib.digits.decode(value.s))
  {
    var text := AnyToString(lib.format, value);
    PassOn(lib.digits.decode(text))
  }

  /**
   * A token made from any input `numbers` Encode accepts decodes to the list that input
   * denotes: a `[]int` or `[]int64` itself, or the one-element list of a scalar's number.
   */
  method NumbersRoundTrip(lib: Libraries, data: Value, value: Value) returns (decoded: Result<seq<int64>, Error>)
    requires value.IntList? || value.Int64List? || NumberArgument(value).Ok?
    requires value.IntList? || value.Int64List? ==> Inverts(lib.digits, value.ints)
    requires NumberArgument(value).Ok? ==> Inverts(lib.digits, [NumberArgument(value).value])
    ensures value.IntList? || value.Int64List? ==> decoded == Ok(value.ints)
    ensures NumberArgument(value).Ok? ==> decoded == Ok([NumberArgument(value).value])
  {
    var token := NumbersEncode(lib, value);
    decoded := NumbersDecode(lib, data, Str(token.value));
  }

  // ---------------------------------------------------------------- the text family

  /**
   * The `base64` and `string` encoders, and `strings` Encode on anything but a
   * `[]string`, see their input only as the text `anyToString` makes of it: they give a
   * value and its stringification the same token. All five text-family decoders
   * (`base64`, `string`, `strings`, `number`, `numbers`) take their text from `value`
   * through `anyToString` and never look at `data`. The `number` and `numbers` encoders
   * are not of this kind: they switch on the Go type of their input.
   */
  lemma TextFamilyReadsValueText(lib: Libraries, data: Value, other: Value, value: Value)
    ensures var t := Str(AnyToString(lib.format, value));
      && Base64Encode(lib, value) == Base64Encode(lib, t)
      && StringEncode(lib, value) == StringEncode(lib, t)
      && (!value.StringList? ==> StringsEncode(lib, value) == StringsEncode(lib, t))
      && Base64Decode(lib, data, value) == Base64Decode(lib, other, t)
      && StringDecode(lib, data, value) == StringDecode(lib, other, t)
      && StringsDecode(lib, data, value) == StringsDecode(lib, other, t)
      && NumberDecode(lib, data, value) == NumberDecode(lib, other, t)
      && NumbersDecode(lib, data, value) == NumbersDecode(lib, other, t)
  {
    var t := Str(AnyToString(lib.format, value));
    assert AnyToString(lib.format, t) == AnyToString(lib.format, value);
  }
}
