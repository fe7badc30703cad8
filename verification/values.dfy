/**
 * The dynamically typed Go values (`Any`) that the codecs receive. Each case of the type
 * switches in the codecs and `anyToString` gets its own constructor, except that the seven
 * remaining slice types (`[]int8` ... `[]Any`) share `OtherList` under a `SliceKind` tag;
 * every other Go value (nil, floats, structs, pointers, ...) is `Other`.
 */
module Values {

  const MinInt64: int := -0x8000_0000_0000_0000
  const MaxInt64: int := 0x7FFF_FFFF_FFFF_FFFF

  /** Go's `int64`. Go's `int` is taken to be 64 bits wide and shares this range. */
  type int64 = n: int | MinInt64 <= n <= MaxInt64

  /** Go's `byte`. */
  newtype byte = b: int | 0 <= b < 256

  /** The element type of the remaining slice types `anyToString` renders as JSON. */
  datatype SliceKind = Int8s | Int16s | Int32s | Float32s | Float64s | Bools | Anys

  datatype Value =
    | Str(s: string)                          // string
    | Int(i: int64)                           // int
    | Int64(i: int64)                         // int64
    | Bool(b: bool)                           // bool
    | Map(entries: map<string, Value>)        // Map, that is map[string]Any
    | MapList(maps: seq<map<string, Value>>)  // []Map
    | IntList(ints: seq<int64>)               // []int
    | Int64List(ints: seq<int64>)             // []int64
    | StringList(strs: seq<string>)           // []string
    | OtherList(kind: SliceKind, items: seq<Value>)  // []int8 ... []Any
    | Bytes(bytes: seq<byte>)                 // []byte
    | Other(tag: nat)                         // any other Go value
  {
    /** The slice types whose JSON rendering falls back to "[]". */
    predicate IsList() {
      MapList? || IntList? || Int64List? || StringList? || OtherList?
    }
  }
}
