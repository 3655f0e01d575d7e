/** The few Python run-time notions the downloader relies on: None, attributes that may
    not exist on an object, dynamically typed values and the exceptions that escape. */
module Py {

  /** A value that Python may leave as None. */
  datatype Option<+T> = None | Some(value: T)

  /** An attribute of `self` that may never have been assigned, or may have been deleted
      with `del`; reading an Absent attribute raises AttributeError. */
  datatype Attr<+T> = Absent | Present(value: T)

  /** A dynamically typed value, as found in ExifTool's metadata dictionary and in the
      dictionary built by `output_as_dictionary`. */
  datatype Value = Null | Bool(b: bool) | Int(i: int) | Str(s: string) | DateTime(stamp: int)

  /** An exception the downloader does not catch. */
  datatype PyError =
    | ValueError(detail: string)
    | TypeError(detail: string)
    | AttributeError(name: string)
    | NameError(name: string)
    | FileNotFoundError(path: string)
    | FileExistsError(path: string)
    | IsADirectoryError(path: string)
    | NotADirectoryError(path: string)

  type byte = b: int | 0 <= b < 256

  /** Python truthiness of a value. */
  predicate Truthy(v: Value) {
    match v
    case Null => false
    case Bool(b) => b
    case Int(i) => i != 0
    case Str(s) => s != ""
    case DateTime(_) => true
  }

  /** Python's `v == n` for an int `n` (a bool compares as 0 or 1). */
  predicate EqualsInt(v: Value, n: int) {
    match v
    case Int(i) => i == n
    case Bool(b) => (if b then 1 else 0) == n
    case _ => false
  }

  function OptionStr(v: Option<string>): Value {
    if v.Some? then Str(v.value) else Null
  }

  function OptionBool(v: Option<bool>): Value {
    if v.Some? then Bool(v.value) else Null
  }

  function OptionInt(v: Option<int>): Value {
    if v.Some? then Int(v.value) else Null
  }
}
