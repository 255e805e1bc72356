/** fromObj and its recursive serialize (src/index.ts:104-159): a nested value
    is walked depth first and every leaf is appended to a form-data buffer
    under a path built from the object keys and array positions above it. */
module Encoder {
  import opened FormModel
  import opened JsText

  /** The options object a caller hands to fromObj; each field may be left
      undefined (None). fromObj writes the defaults back into it. */
  class CallerOptions {
    var indices: Option<bool>
    var nullsAsUndefineds: Option<bool>
    var booleansAsIntegers: Option<bool>
    var allowEmptyArrays: Option<bool>
    var noAttributesWithArrayNotation: Option<bool>
    var noFilesWithArrayNotation: Option<bool>
    var dotsForObjectNotation: Option<bool>

    /** `{}`: every option undefined. */
    constructor ()
      ensures indices == None && nullsAsUndefineds == None && booleansAsIntegers == None
      ensures allowEmptyArrays == None && noAttributesWithArrayNotation == None
      ensures noFilesWithArrayNotation == None && dotsForObjectNotation == None
    {
      indices, nullsAsUndefineds, booleansAsIntegers := None, None, None;
      allowEmptyArrays, noAttributesWithArrayNotation := None, None;
      noFilesWithArrayNotation, dotsForObjectNotation := None, None;
    }

    /** The options serialize sees: each field after initOption. */
    function Effective(): (o: Options)
      reads this
      ensures o.indices <==> indices == Some(true)
      ensures o.nullsAsUndefineds <==> nullsAsUndefineds == Some(true)
      ensures o.booleansAsIntegers <==> booleansAsIntegers == Some(true)
      ensures o.allowEmptyArrays <==> allowEmptyArrays == Some(true)
      ensures o.noAttributesWithArrayNotation <==> noAttributesWithArrayNotation == Some(true)
      ensures o.noFilesWithArrayNotation <==> noFilesWithArrayNotation == Some(true)
      ensures o.dotsForObjectNotation <==> dotsForObjectNotation == Some(true)
    {
      Options(InitOption(indices), InitOption(nullsAsUndefineds), InitOption(booleansAsIntegers),
              InitOption(allowEmptyArrays), InitOption(noAttributesWithArrayNotation),
              InitOption(noFilesWithArrayNotation), InitOption(dotsForObjectNotation))
    }

    /** `options.x = initOption(options.x)` for all seven options. */
    method Initialize()
      modifies this
      ensures indices == Some(InitOption(old(indices)))
      ensures nullsAsUndefineds == Some(InitOption(old(nullsAsUndefineds)))
      ensures booleansAsIntegers == Some(InitOption(old(booleansAsIntegers)))
      ensures allowEmptyArrays == Some(InitOption(old(allowEmptyArrays)))
      ensures noAttributesWithArrayNotation == Some(InitOption(old(noAttributesWithArrayNotation)))
      ensures noFilesWithArrayNotation == Some(InitOption(old(noFilesWithArrayNotation)))
      ensures dotsForObjectNotation == Some(InitOption(old(dotsForObjectNotation)))
      ensures Effective() == old(Effective())
    {
      indices := Some(InitOption(indices));
      nullsAsUndefineds := Some(InitOption(nullsAsUndefineds));
      booleansAsIntegers := Some(InitOption(booleansAsIntegers));
      allowEmptyArrays := Some(InitOption(allowEmptyArrays));
      noAttributesWithArrayNotation := Some(InitOption(noAttributesWithArrayNotation));
      noFilesWithArrayNotation := Some(InitOption(noFilesWithArrayNotation));
      dotsForObjectNotation := Some(InitOption(dotsForObjectNotation));
    }
  }

  /** The FormData buffer: an ordered list of entries that only grows. */
  class FormData {
    var entries: seq<Entry>

    constructor ()
      ensures entries == []
    {
      entries := [];
    }

    method Append(key: string, value: EntryVal)
      modifies this
      ensures entries == old(entries) + [(key, value)]
    {
      entries := entries + [(key, value)];
    }
  }

  // ---------------------------------------------------------------------------
  // How serialize builds keys and values

  function BoolText(o: Options, b: bool): string
  {
    if o.booleansAsIntegers then (if b then "1" else "0")
    else (if b then "true" else "false")
  }

  /** The path of the element at `index` of an array found at `path`. */
  function ItemPath(o: Options, path: string, index: nat): string
  {
    if o.noAttributesWithArrayNotation then path
    else path + "[" + (if o.indices then Decimal(index) else "") + "]"
  }

  /** The path of the value under `key` of an object found at `path`. */
  function FieldPath(o: Options, path: string, key: string): string
  {
    if path == "" then key
    else if o.dotsForObjectNotation then path + "." + key
    else path + "[" + key + "]"
  }

  /** The key a file or blob found at `path` is appended under. */
  function FileKey(o: Options, path: string): string
  {
    if o.noFilesWithArrayNotation then StripIndexSuffix(path) else path
  }

  /** String(v) for the values that reach the last branch of serialize. */
  function StringOf(v: Value): string
    requires v.Num? || v.Str?
  {
    if v.Num? then IntToString(v.n) else v.s
  }

  // ---------------------------------------------------------------------------
  // The entries serialize appends, as functions

  /** The entries `serialize(v, path)` appends, in order; the `if` chain takes
      the branches in the source's order. */
  function Serialized(o: Options, v: Value, path: string): seq<Entry>
    decreases v, 2
  {
    if IsUndefined(v) then []
    else if IsNull(v) then (if o.nullsAsUndefineds then [] else [(path, Text(""))])
    else if IsBoolean(v) then [(path, Text(BoolText(o, v.b)))]
    else if IsArray(v) then
      (if |v.items| > 0 || o.allowEmptyArrays then ItemsUpTo(o, v, path, |v.items|) else [])
    else if IsDate(v) then [(path, Text(v.iso))]
    else if IsBlob(v) || IsFile(v) then [(FileKey(o, path), File(v.id))]
    else if IsObject(v) then FieldsUpTo(o, v, path, |v.fields|)
    else [(path, Text(StringOf(v)))]
  }

  /** The entries of the first n elements of the array `arr`. */
  function ItemsUpTo(o: Options, arr: Value, path: string, n: nat): seq<Entry>
    requires arr.Arr? && n <= |arr.items|
    decreases arr, 1, n
  {
    if n == 0 then []
    else ItemsUpTo(o, arr, path, n - 1) + Serialized(o, arr.items[n - 1], ItemPath(o, path, n - 1))
  }

  /** The entries of the first n fields of the object `obj`. */
  function FieldsUpTo(o: Options, obj: Value, path: string, n: nat): seq<Entry>
    requires obj.Obj? && n <= |obj.fields|
    decreases obj, 1, n
  {
    if n == 0 then []
    else
      FieldsUpTo(o, obj, path, n - 1)
        + Serialized(o, obj.fields[n - 1].1, FieldPath(o, path, obj.fields[n - 1].0))
  }

  /** `fromObj(obj)` with the options already defaulted: serialize starts at
      the empty path. */
  function Encode(o: Options, obj: Value): seq<Entry>
  {
    Serialized(o, obj, "")
  }

  // ---------------------------------------------------------------------------
  // The imperative encoder

  /** serialize: appends the entries of `v` to `fd`, and nothing else. */
  method Serialize(fd: FormData, o: Options, v: Value, path: string)
    modifies fd
    ensures fd.entries == old(fd.entries) + Serialized(o, v, path)
    decreases v, 2
  {
    if IsUndefined(v) {
      return;
    } else if IsNull(v) {
      if !o.nullsAsUndefineds {
        fd.Append(path, Text(""));
      }
    } else if IsBoolean(v) {
      if o.booleansAsIntegers {
        fd.Append(path, Text(if v.b then "1" else "0"));
      } else {
        fd.Append(path, Text(if v.b then "true" else "false"));
      }
    } else if IsArray(v) {
      if |v.items| > 0 || o.allowEmptyArrays {
        SerializeItems(fd, o, v, path);
      }
    } else if IsDate(v) {
      fd.Append(path, Text(v.iso));
    } else if IsBlob(v) || IsFile(v) {
      var key := if o.noFilesWithArrayNotation then StripIndexSuffix(path) else path;
      fd.Append(key, File(v.id));
    } else if IsObject(v) {
      SerializeFields(fd, o, v, path);
    } else {
      fd.Append(path, Text(StringOf(v)));
    }
  }

  /** The `forEach` over an array's elements. */
  method SerializeItems(fd: FormData, o: Options, arr: Value, path: string)
    requires arr.Arr?
    modifies fd
    ensures fd.entries == old(fd.entries) + ItemsUpTo(o, arr, path, |arr.items|)
    decreases arr, 1
  {
    ghost var start := fd.entries;
    var index := 0;
    while index < |arr.items|
      invariant 0 <= index <= |arr.items|
      invariant fd.entries == start + ItemsUpTo(o, arr, path, index)
    {
      var key := ItemPath(o, path, index);
      Serialize(fd, o, arr.items[index], key);
      ItemsStep(o, arr, path, index);
      AppendAssoc(start, ItemsUpTo(o, arr, path, index), Serialized(o, arr.items[index], key));
      index := index + 1;
    }
  }

  /** The `forEach` over an object's keys. */
  method SerializeFields(fd: FormData, o: Options, obj: Value, path: string)
    requires obj.Obj?
    modifies fd
    ensures fd.entries == old(fd.entries) + FieldsUpTo(o, obj, path, |obj.fields|)
    decreases obj, 1
  {
    ghost var start := fd.entries;
    var i := 0;
    while i < |obj.fields|
      invariant 0 <= i <= |obj.fields|
      invariant fd.entries == start + FieldsUpTo(o, obj, path, i)
    {
      var key, value := obj.fields[i].0, obj.fields[i].1;
      var newPath := FieldPath(o, path, key);
      Serialize(fd, o, value, newPath);
      FieldsStep(o, obj, path, i);
      AppendAssoc(start, FieldsUpTo(o, obj, path, i), Serialized(o, value, newPath));
      i := i + 1;
    }
  }

  lemma AppendAssoc(a: seq<Entry>, b: seq<Entry>, c: seq<Entry>)
    ensures (a + b) + c == a + (b + c)
  {
  }

  /** One more element, or one more field, appends its own entries. */
  lemma ItemsStep(o: Options, arr: Value, path: string, i: nat)
    requires arr.Arr? && i < |arr.items|
    ensures ItemsUpTo(o, arr, path, i + 1)
         == ItemsUpTo(o, arr, path, i) + Serialized(o, arr.items[i], ItemPath(o, path, i))
  {
  }

  lemma FieldsStep(o: Options, obj: Value, path: string, i: nat)
    requires obj.Obj? && i < |obj.fields|
    ensures FieldsUpTo(o, obj, path, i + 1)
         == FieldsUpTo(o, obj, path, i) + Serialized(o, obj.fields[i].1, FieldPath(o, path, obj.fields[i].0))
  {
  }

  /** fromObj: defaults the caller's options in place, then serializes `obj`
      from the empty path into a new buffer. */
  method FromObj(obj: Value, options: CallerOptions) returns (formData: FormData)
    modifies options
    ensures fresh(formData)
    ensures formData.entries == Encode(old(options.Effective()), obj)
    ensures options.Effective() == old(options.Effective())
    ensures options.indices == Some(InitOption(old(options.indices)))
    ensures options.nullsAsUndefineds == Some(InitOption(old(options.nullsAsUndefineds)))
    ensures options.booleansAsIntegers == Some(InitOption(old(options.booleansAsIntegers)))
    ensures options.allowEmptyArrays == Some(InitOption(old(options.allowEmptyArrays)))
    ensures options.noAttributesWithArrayNotation == Some(InitOption(old(options.noAttributesWithArrayNotation)))
    ensures options.noFilesWithArrayNotation == Some(InitOption(old(options.noFilesWithArrayNotation)))
    ensures options.dotsForObjectNotation == Some(InitOption(old(options.dotsForObjectNotation)))
  {
    formData := new FormData();
    options.Initialize();
    Serialize(formData, options.Effective(), obj, "");
  }
}
