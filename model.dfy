/** The shapes shared by the encoder and the decoder: the nested value tree, the
    flat form entry, the seven encoder options, and the type tests the encoder
    dispatches on (src/index.ts:1-58). */
module FormModel {

  datatype Option<+T> = None | Some(value: T)

  datatype Result<+T, +E> = Ok(value: T) | Err(error: E)

  /** A nested value. `Blob` stands for a File or Blob object, identified by an
      opaque id; `Date` carries the ISO string its toISOString() would give;
      numbers are restricted to integers. An `Obj` lists its own enumerable
      keys in enumeration order. The type does not forbid a key listed twice,
      which a JavaScript object cannot have; the encoder facts hold for such
      values as well, and the round trip requires distinct keys. */
  datatype Value =
    | Undef
    | Null
    | Bool(b: bool)
    | Num(n: int)
    | Str(s: string)
    | Blob(id: nat)
    | Date(iso: string)
    | Arr(items: seq<Value>)
    | Obj(fields: seq<(string, Value)>)

  /** What a form entry holds: a string, or the File/Blob appended unchanged. */
  datatype EntryVal = Text(text: string) | File(id: nat)

  /** One form entry, in the order FormData.entries() yields it. */
  type Entry = (string, EntryVal)

  /** The encoder options after defaulting. */
  datatype Options = Options(
    indices: bool,
    nullsAsUndefineds: bool,
    booleansAsIntegers: bool,
    allowEmptyArrays: bool,
    noAttributesWithArrayNotation: bool,
    noFilesWithArrayNotation: bool,
    dotsForObjectNotation: bool)

  /** A `boolean | undefined` option defaults to false. */
  function InitOption(given: Option<bool>): (r: bool)
    ensures r <==> given == Some(true)
  {
    match given
    case None => false
    case Some(b) => b
  }

  predicate IsUndefined(v: Value) { v.Undef? }

  predicate IsNull(v: Value) { v.Null? }

  predicate IsBoolean(v: Value) { v.Bool? }

  predicate IsArray(v: Value) { v.Arr? }

  predicate IsDate(v: Value) { v.Date? }

  /** File and Blob are one opaque shape here, so isFile and isBlob agree. */
  predicate IsBlob(v: Value) { v.Blob? }

  predicate IsFile(v: Value) { v.Blob? }

  /** `value === Object(value)`: true of every non-primitive, so of arrays,
      dates and blobs as well as plain objects. */
  predicate IsObject(v: Value)
  {
    !(v.Undef? || v.Null? || v.Bool? || v.Num? || v.Str?)
  }

  /** The branch of `serialize` a value takes, by the order of its tests:
      1 undefined, 2 null, 3 boolean, 4 array, 5 date, 6 blob or file,
      7 object, 8 anything else. Because the earlier tests remove arrays, dates
      and blobs, only a plain object reaches branch 7, and only numbers and
      strings reach the generic string conversion. */
  function Branch(v: Value): (b: nat)
    ensures 1 <= b <= 8
    ensures b == 7 <==> v.Obj?
    ensures b == 8 <==> (v.Num? || v.Str?)
    ensures b == 2 <==> v.Null?
    ensures b == 4 <==> v.Arr?
  {
    if IsUndefined(v) then 1
    else if IsNull(v) then 2
    else if IsBoolean(v) then 3
    else if IsArray(v) then 4
    else if IsDate(v) then 5
    else if IsBlob(v) || IsFile(v) then 6
    else if IsObject(v) then 7
    else 8
  }
}
