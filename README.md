# formdata-to-from-object in Dafny

This is a model of the two conversions in `src/index.ts`:

- **`fromObj`** flattens a nested value into an ordered list of form entries. Its recursive `serialize` walks the value depth first and appends one entry per leaf. The key of each entry is built from the object keys and array positions above the leaf.
- **`toObj`** reads such a list back into a tree. It works in four steps:
  1. It collapses the entries to one value per key; the last write wins.
  2. It cuts each key into segments, on `.` or on `[`/`]`.
  3. It walks the segments down the tree, creating an object or an array for a missing or falsy slot.
  4. It coerces the leaf string to a boolean, null, a number or a date where it can.

The model follows the form of the code.

- **Options.** The caller's options object is the class `CallerOptions`. `fromObj` writes each option's default back into it.
- **Entries.** The form-data buffer is the class `FormData`. It holds a sequence of entries and only grows by `Append`.
- **Encoder.** `serialize` is the method `Serialize`. Its two `forEach` loops are `while` loops, in `SerializeItems` and `SerializeFields`. Each method is proved to append exactly the entries the function `Serialized` lists.
- **Decoder.** Both `reduce` loops of `toObj` are methods proved against folds:
  - `CollapseEntries` against `Collapse`;
  - `PlaceAll` against `PlaceUpTo`.
- **The walk down one key** is the recursive function `Place`, over a value tree of `Node`s.
- **Helpers.** The type tests, `initOption` and the string work are functions: splitting, digits, the date pattern and stripping a trailing index.

Modules:

| file | module | contents |
|---|---|---|
| model.dfy | `FormModel` | values, entries, options, `initOption`, the type tests |
| text.dfy | `JsText` | decimal rendering and parsing, the numeric test, the date pattern, `split`, path builders, index-suffix stripping |
| encoder.dfy | `Encoder` | `CallerOptions`, `FormData`, `serialize`, `fromObj` |
| encoder_facts.dfy | `EncoderFacts` | what the appended entries are: leaves, key shapes, files, counts |
| decoder.dfy | `Decoder` | the collapse, the tokeniser, coercion, the walk, `toObj` |
| decoder_facts.dfy | `DecoderFacts` | last write wins, tokens, coercion order, when the walk fails, containers created or reused |
| roundtrip.dfy | `RoundTrip` | `toObj(fromObj(v, { indices: true }))` gives back `v`, under stated restrictions, plus two inputs where the round trip does not hold |

## Model

| member | source | states |
|---|---|---|
| FormModel.InitOption | src/index.ts:56-58 | an option is true exactly when the caller set it to true; undefined becomes false |
| FormModel.IsUndefined | src/index.ts:24-26 | `value === undefined`; `FormModel.Branch` and `EncoderFacts.SerializedByBranch` state that it selects the branch that emits nothing |
| FormModel.IsNull | src/index.ts:28-30 | `value === null`; `FormModel.Branch` and `EncoderFacts.SerializedByBranch` state that it selects the null branch |
| FormModel.IsBoolean | src/index.ts:32-34 | `typeof value === 'boolean'`; `EncoderFacts.SerializedByBranch` states that it selects the boolean text |
| FormModel.IsObject | src/index.ts:36-38 | `value === Object(value)`, true for every non-primitive; `FormModel.Branch` states that only a plain object still reaches the object branch after the earlier tests |
| FormModel.IsArray | src/index.ts:40-42 | `Array.isArray`; `EncoderFacts.SerializedByBranch` states that it selects the element loop |
| FormModel.IsDate | src/index.ts:44-46 | `instanceof Date`; `EncoderFacts.SerializedByBranch` states that it selects the ISO string |
| FormModel.IsFile | src/index.ts:48-50 | `instanceof File`; `EncoderFacts.SerializedByBranch` states that it selects the file entry |
| FormModel.IsBlob | src/index.ts:52-54 | `instanceof Blob`; `EncoderFacts.SerializedByBranch` states that it selects the file entry |
| FormModel.Branch | src/index.ts:115-154 | the `serialize` branch a value takes: only a plain object reaches the object branch; only numbers and strings reach `String(...)`; null and arrays take their own branches |
| Encoder.BoolText | src/index.ts:123-127 | the text of a boolean leaf; `EncoderFacts.ScalarLeaves` states it is `1`/`0` with booleansAsIntegers and `true`/`false` otherwise |
| Encoder.StringOf | src/index.ts:153 | `String(v)` of a number or string, numbers as exact integers (listed under "## Left out"); `EncoderFacts.ScalarLeaves` states that a string is kept and a number rendered by `IntToString`, and `JsText.NumberOfIntToString` that it reads back |
| Encoder.Encode | src/index.ts:157 | `serialize(obj)` from the empty path; `Encoder.FromObj` is proved to append exactly these entries and `RoundTrip.DecodeEncode` states that `toObj` reads them back |
| Encoder.CallerOptions.constructor | src/index.ts:104 | `options = {}` leaves every option undefined |
| Encoder.CallerOptions.Effective | src/index.ts:56-58 | each option `serialize` sees is true exactly when the caller's field is `Some(true)` |
| Encoder.CallerOptions.Initialize | src/index.ts:107-113 | every one of the seven fields is overwritten by its default, and the options seen do not change |
| Encoder.FormData.constructor | src/index.ts:105 | a new buffer holds no entry |
| Encoder.FormData.Append | src/index.ts:120 | appending adds exactly one entry at the end, and nothing else changes |
| Encoder.Serialize | src/index.ts:115-155 | the buffer afterwards is the old buffer followed by exactly `Serialized(o, v, path)` |
| Encoder.SerializeItems | src/index.ts:128-136 | the `forEach` over an array appends the entries of every element, in index order, each under its element path |
| Encoder.SerializeFields | src/index.ts:142-151 | the `forEach` over an object appends the entries of every field, in key order, each under its field path |
| Encoder.FromObj | src/index.ts:104-159 | a fresh buffer holding `Encode` of the defaulted options; the caller's options are overwritten by their defaults |
| EncoderFacts.ScalarLeaves | src/index.ts:116-154 | undefined emits nothing; null emits `(path, "")`, or nothing with nullsAsUndefineds; a boolean emits `true`/`false`, or `1`/`0` with booleansAsIntegers; a number or string gets its string under `path`; a date gets its ISO string |
| Encoder.Serialized | src/index.ts:115-155 | the entries one call of `serialize` appends; `Encoder.Serialize` is proved to append exactly these, and their values, count, keys and per-branch shape are stated by `EncoderFacts.ValuesInOrder`, `EntryCount`, `KeysExtendPath`, `ScalarLeaves`, `SerializedByBranch` and `RoundTrip.EncodeLeafPaths` |
| Encoder.ItemPath | src/index.ts:131-133 | the key of an array element; `EncoderFacts.ItemPathInBrackets`, `EncoderFacts.FileInArray` and `JsText.DecimalInjective` state its shape and that distinct indices give distinct keys |
| Encoder.FieldPath | src/index.ts:145-149 | the key of an object field; `EncoderFacts.FieldPathInBrackets` and `EncoderFacts.FieldPathInDots` state it as one more segment of a bracket or dot path |
| Encoder.FileKey | src/index.ts:140 | the key a file is appended under; `EncoderFacts.FileInArray`, `FileKeepsPlainPath` and `FileLosesIndexSuffix` state when it differs from the path |
| EncoderFacts.SerializedByBranch | src/index.ts:115-154 | the entries of each branch, selected by `FormModel.Branch`, the order of the type tests: nothing, the null entry, the boolean text, the array elements, the ISO string, the file under its file key, the fields, `String(v)` |
| EncoderFacts.NoAttributesFlattens | src/index.ts:128-136 | with noAttributesWithArrayNotation every element is serialized under the array's own path: the entries are those of the elements, one after another, at that path |
| EncoderFacts.SerializedAllAppend | src/index.ts:130-135 | serializing one more element at the same path appends its entries after the earlier ones |
| EncoderFacts.EmptyArrayEmitsNothing | src/index.ts:128-136 | an empty array emits no entry, whether or not allowEmptyArrays is set |
| EncoderFacts.ValuesInOrder | src/index.ts:115-158 | the appended values are exactly the emitting leaves, in depth-first key order |
| EncoderFacts.EntryCount | src/index.ts:115-158 | the number of entries equals the number of emitting leaves |
| EncoderFacts.KeysExtendPath | src/index.ts:128-151 | unless file keys are stripped, every key appended below `path` starts with `path` |
| EncoderFacts.DotsLeaveArraysAlone | src/index.ts:128-151 | dotsForObjectNotation has no effect on a value without objects: array brackets are unaffected |
| EncoderFacts.FileInArray | src/index.ts:139-141 | with noFilesWithArrayNotation a file that is an array element is appended under the array's own path, with or without indices; without the option it keeps the element's path |
| EncoderFacts.FileKeepsPlainPath | src/index.ts:139-141 | with noFilesWithArrayNotation a file whose path has no trailing `[digits]` keeps its path, and the file is appended unchanged |
| EncoderFacts.FileLosesIndexSuffix | src/index.ts:139-141 | with noFilesWithArrayNotation exactly one trailing `[digits]` group is removed from a file key |
| EncoderFacts.FieldPathInBrackets | src/index.ts:145-149 | a key below a non-empty path becomes one more bracketed segment; below the empty path it is used bare |
| EncoderFacts.FieldPathInDots | src/index.ts:145-149 | with dotsForObjectNotation the key is joined with `.` instead, or used bare below the empty path |
| EncoderFacts.ItemPathInBrackets | src/index.ts:131-133 | unless noAttributesWithArrayNotation is set, element `i` is written `path[i]` with indices and `path[]` without |
| JsText.IsNumeric | src/index.ts:84 | the integer strings the model's coercion turns into numbers: `""`, or an optional sign and ASCII digits. It is a subset of the strings `Number(...)` does not read as NaN (`JsText.NumericIsNumberText`); `DecoderFacts.EmptyIsZero`, `JsText.NumberOfIntToString` and `JsText.DateIsNotNumeric` state which strings it accepts and what they parse to |
| JsText.IsNumberText | src/index.ts:95 | `!isNaN(Number(s))`, as a scan of JavaScript's StringNumericLiteral grammar: optional white space around an empty string, a signed decimal with fraction and exponent, `Infinity`, or an unsigned `0x`/`0o`/`0b` literal; `JsText.NumericIsNumberText`, `NumberTextBeyondIntegers` and `NotNumberTexts` state which strings it accepts |
| JsText.NumericIsNumberText | src/index.ts:84 | every string the integer test accepts is also one `Number(...)` reads as a number |
| JsText.NumberTextBeyondIntegers | src/index.ts:95 | `1.5`, a lone space, `1e3`, `0x1f` and `-Infinity` are numbers for JavaScript but not integer strings |
| JsText.NotNumberTexts | src/index.ts:95 | `abc`, `-`, `.`, `-0x1` and `1a` are NaN for `Number(...)` |
| JsText.Decimal | src/index.ts:133 | the digits of an array index in a template string; `JsText.DecimalInjective` states that distinct indices give distinct strings |
| JsText.IntToString | src/index.ts:153 | `String(n)` of an integer, in plain decimal digits at every size (the exponent form is listed under "## Left out"); `JsText.NumberOfIntToString` states that `ParseNumber` gives `n` back |
| JsText.ParseNumber | src/index.ts:84 | `Number(value)` of an integer string, exactly, with no rounding to a double (listed under "## Left out"); `JsText.NumberOfIntToString` states it inverts `IntToString` and `DecoderFacts.EmptyIsZero` that `""` gives 0 |
| JsText.MatchesDatePattern | src/index.ts:85 | the ISO date pattern; `JsText.DateIsNotNumeric` and `DecoderFacts.DateReadsBack` state that a matching string becomes a date |
| JsText.StripIndexSuffix | src/index.ts:140 | the replace of `/\[\d*\]$/`; `JsText.StripsIndexSuffix` and `JsText.KeepsOtherPaths` state what it removes and when it changes nothing |
| JsText.SplitBrackets | src/index.ts:71 | `split(/[\[\]]/).filter(Boolean)`; `JsText.SplitBracketsShape`, `EmptyBracketsVanish` and `SplitBracketPath` state its tokens |
| JsText.SplitDots | src/index.ts:71 | `split('.')`; `JsText.SplitOnShape`, `SplitDotPath` and `DotPathOfSplit` state its tokens |
| JsText.StripsIndexSuffix | src/index.ts:140 | `/\[\d*\]$/` removes a trailing `[digits]` group, empty digits included |
| JsText.KeepsOtherPaths | src/index.ts:140 | the replace leaves a path alone exactly when it has no trailing `[digits]` group |
| JsText.NumberOfIntToString | src/index.ts:153 | `Number(String(n)) == n`, and the string is numeric, for every integer |
| JsText.DecimalInjective | src/index.ts:133 | distinct indices render as distinct strings |
| JsText.DateIsNotNumeric | src/index.ts:84-85 | a string matching the date pattern is not numeric, so the date rule is reached for it |
| JsText.SplitOnShape | src/index.ts:71 | `split` gives one more token than there are separators; no token holds one; together the tokens spell the key without separators |
| JsText.SplitBracketsShape | src/index.ts:71 | bracket tokens are non-empty, and together they spell the key without brackets |
| JsText.EmptyBracketsVanish | src/index.ts:71 | appending `[]` to a key does not change its bracket tokens |
| JsText.SplitBracketPath | src/index.ts:71 | splitting a bracket path gives back its non-empty segments |
| JsText.SplitDotPath | src/index.ts:71 | splitting a dot path of dot-free segments gives back the segments |
| JsText.DotPathOfSplit | src/index.ts:71 | joining the dot tokens of a key with `.` gives back the key |
| Decoder.Assign | src/index.ts:64 | `obj[key] = value` on the accumulator; its effect over a whole list is stated by `DecoderFacts.CollapseOrder` and `DecoderFacts.LastWriteWins` |
| Decoder.Collapse | src/index.ts:62-68 | the accumulator after the whole `reduce`; `DecoderFacts.CollapseShape`, `CollapseOrder` and `LastWriteWins` state its keys, their order and their values |
| Decoder.Tokenise | src/index.ts:71 | the segments of a key in either mode; `DecoderFacts.SimpleKeyTokens`, `DotsKeepEmptyTokens`, `TrailingBracketsIgnored` and `BracketsDropEmptyTokens` state its behaviour, `JsText.SplitBracketsShape` and `JsText.SplitOnShape` the shape of its tokens |
| Decoder.Truthy | src/index.ts:94 | JavaScript truthiness of a slot; `DecoderFacts.PlaceMakesContainer` and `PlaceFailsIffBlocked` state what the walk does with truthy and falsy slots |
| Decoder.NewContainer | src/index.ts:95 | the container made for a missing or falsy slot; `DecoderFacts.PlaceMakesContainer` states that it is an array exactly when `Number` of the next segment is not NaN (`JsText.IsNumberText`) |
| Decoder.Place | src/index.ts:72-98 | the walk down one key; `Decoder.PlaceFrame`, `PlaceThenLookup` and `DecoderFacts.PlaceIntoEmpty`, `PlaceFailsIffBlocked`, `PlaceMakesContainer`, `LastSegmentOverwrites` state what it changes, keeps and fails on |
| Decoder.PlaceUpTo | src/index.ts:70-101 | the output after the first n keys; `Decoder.PlaceAll` is proved to compute it, `Decoder.ErrorPersists` and `DecoderFacts.FlatDecode` state its outcome |
| Decoder.CollapseEntries | src/index.ts:61-68 | the `reduce` loop ends with the key order and the values the fold `Collapse` gives |
| Decoder.Coerce | src/index.ts:76-92 | a file stays a file and nothing else becomes one; every result is a scalar |
| Decoder.PlaceFrame | src/index.ts:72-98 | storing along a path changes only the slot of its first segment |
| Decoder.PlaceThenLookup | src/index.ts:72-98 | a stored leaf is found again along its path |
| Decoder.Decode | src/index.ts:60-102 | a successful result is an object, never an array |
| Decoder.ErrorPersists | src/index.ts:70-101 | once a key cannot be stored, the result is that error, whatever keys follow |
| Decoder.PlaceAll | src/index.ts:70-101 | the second `reduce` loop gives the fold `PlaceUpTo` over all keys |
| Decoder.ToObj | src/index.ts:60-102 | the method gives exactly `Decode` of its entries |
| DecoderFacts.CollapseShape | src/index.ts:62-68 | after the collapse every key seen is listed once and has a value, and no other key has one |
| DecoderFacts.CollapseOrder | src/index.ts:62-70 | the keys keep the order of their first occurrence |
| DecoderFacts.LastWriteWins | src/index.ts:64 | the value kept for a key is that of its last occurrence |
| DecoderFacts.DistinctKeysKeepOrder | src/index.ts:62-68 | without repeated keys the key order is the entry order |
| DecoderFacts.CollapseEntriesFacts | src/index.ts:61-68 | the loop's result lists each key once in first-occurrence order, with the value of its last occurrence |
| DecoderFacts.SimpleKeyTokens | src/index.ts:71 | a key with no separator is one segment; in bracket mode it must also be non-empty |
| DecoderFacts.DotsKeepEmptyTokens | src/index.ts:71 | `a..b` in dot mode gives `a`, the empty segment and `b` |
| DecoderFacts.TrailingBracketsIgnored | src/index.ts:71 | in bracket mode `tags[]` and `tags` give the same segments |
| DecoderFacts.BracketsDropEmptyTokens | src/index.ts:71 | in bracket mode `a[][b]` gives `a`, `b` |
| DecoderFacts.CoerceRules | src/index.ts:76-86 | each coercion rule: a file is kept, `true`, `false` and `null` become their values, an integer string its number, and a date-shaped string a date |
| DecoderFacts.StaysString | src/index.ts:79-89 | a string stays a string exactly when it is not `true`, `false` or `null`, not numeric and not date-shaped |
| DecoderFacts.EmptyIsZero | src/index.ts:84 | the empty string counts as numeric and becomes 0 |
| DecoderFacts.NumberReadsBack | src/index.ts:84 | a rendered integer reads back as that number |
| DecoderFacts.DateReadsBack | src/index.ts:85-86 | a date-shaped string becomes a date |
| DecoderFacts.PlaceIntoEmpty | src/index.ts:94-97 | nothing blocks a path stored into an empty container |
| DecoderFacts.PlaceFailsIffBlocked | src/index.ts:94-97 | storing fails exactly when following the path through existing containers reaches a truthy scalar before the last segment |
| DecoderFacts.PlaceMakesContainer | src/index.ts:94-97 | a missing or falsy slot gets a new container, an array exactly when `Number` of the next segment is not NaN; an existing container is reused, with its kind and its other entries kept |
| DecoderFacts.LastSegmentOverwrites | src/index.ts:75-92 | the last segment always receives the leaf, whatever the slot held |
| DecoderFacts.DecodeNothing | src/index.ts:70-101 | no entries decode to an empty object |
| DecoderFacts.FlatDecode | src/index.ts:60-102 | distinct one-segment keys decode to an object with exactly those keys, each holding its coerced value |
| RoundTrip.LeafPathsWell | src/index.ts:128-151 | below the restrictions, the leaf paths of a value are distinct, non-empty and made of single segments |
| RoundTrip.EncodeLeafPaths | src/index.ts:115-155 | with indices the entries of a value are its leaves, each under the bracket path of its segments |
| RoundTrip.PlaceValue | src/index.ts:70-101 | storing a value's leaf paths below a missing slot builds that value's tree there |
| RoundTrip.DecodeLeaves | src/index.ts:60-102 | entries under distinct well-formed paths decode to the fold of their leaves |
| RoundTrip.DecodeEncode | src/index.ts:60-159 | `toObj(fromObj(v, { indices: true }))` is `v`'s tree, under the restrictions of `Round` and `OwnKeys` |
| RoundTrip.EncodeThenDecode | src/index.ts:60-159 | the same through the methods: `FromObj`, then `ToObj` on its buffer, gives `v`'s tree |
| RoundTrip.NullComesBackAsZero | src/index.ts:118-121 | `{a: null}` encodes to `a=""`, which decodes to `{a: 0}` |
| RoundTrip.DefaultArraysCollapse | src/index.ts:128-136 | without indices, `{a: ["x", "y"]}` encodes to two `a[]` entries, which decode to `{a: "y"}` |

### Round-trip restrictions

`Round(v, root)` states where the round trip holds:
- the encoding uses `indices: true` and no other option;
- every array and every object below the root is non-empty;
- every object key is non-empty and free of brackets, and below the root `Number` of it is NaN (`!IsNumberText`), so the decoder builds an object and not an array;
- every leaf is a boolean, an integer, a file, a date-shaped date, or a string that is not `true`, `false` or `null`, not date-shaped, and for which `Number` is NaN, so that the source also leaves it a string;
- `OwnKeys(v)`: no object key names a property every JavaScript object inherits from `Object.prototype` (`constructor`, `__proto__`, `toString`, ...).

`RoundTrip.NullComesBackAsZero` and `RoundTrip.DefaultArraysCollapse` show that the round trip fails once the restrictions on nulls and on index-free arrays are dropped.

## Left out

- JsText.IsNumeric: numbers are integers only. `IsNumeric` accepts `""`, or an optional sign followed by ASCII digits. It rejects other strings for which `Number(...)` is not NaN: decimals, exponents, hex, surrounding whitespace, `Infinity`. So `Decoder.Coerce` keeps such leaf strings as strings or dates, where the source makes numbers of them. Floating point is not modelled. The container choice and the round trip use the full test `IsNumberText`, so they do not depend on this.
- JsText.IntToString / JsText.ParseNumber / Encoder.StringOf: numbers are unbounded integers and both conversions are exact for every one of them. JavaScript numbers are doubles: `String(n)` at `src/index.ts:153` writes a number with |n| ≥ 10^21 in exponent form (`1e+21`), where `IntToString` writes all its digits, and `Number(value)` at `src/index.ts:84` rounds a digit string beyond 2^53 to the nearest double (`9007199254740993` becomes `9007199254740992`), where `ParseNumber` keeps the exact value. `RoundTrip.DecodeEncode` is likewise stated for the model's exact integers.
- `new Date(value)` and `toISOString()` are not modelled. A date carries its ISO string, so a date-shaped but invalid date is still a `Date` in the model. For an invalid date, `toISOString()` at `src/index.ts:138` throws a RangeError, which stops `fromObj`; `Encoder.Serialized` appends the carried string instead.
- `File` and `Blob` are one opaque value with an id. So `isFile` and `isBlob` agree, and the runtime checks `typeof File !== 'undefined'` are left out. `FormData.append` (`src/index.ts:141`) wraps a Blob that is not a File in a new File named `blob`, so in the source `toObj(fromObj(v))` returns a different object for such a Blob; the model appends and returns the same `Blob(id)`, and `RoundTrip.DecodeEncode` gives it back unchanged.
- The browser `FormData` object is a sequence of entries. `entries()` yields them in append order.
- `Object.keys` is modelled as the order the object lists its fields in. Integer-like keys, which JavaScript enumerates first, are not reordered. Non-enumerable properties are not modelled.
- Decoder.Place: descending into a slot that holds a truthy string, number, `true`, date or file gives `Err(Blocked)`. JavaScript instead throws a TypeError for a primitive in strict mode, or silently attaches a property to a date or file object. The model does not tell these apart.
- Decoder.Place: the inner `for` loop, which reassigns `currentObject`, is modelled as recursion on a value tree. It does not capture that `output` and the containers are shared objects updated in place, and it does not capture aliasing.
- Decoder.Node: array containers map string indices to children. Sparse arrays, `length` and holes are not modelled.
- `dotsForObjectNotation` enters `toObj` as the bool `dots`, the truthiness of the option.
- A decoded leaf that is not a string or a file (`src/index.ts:91`) cannot occur, because entry values are only strings or files.
- RoundTrip.DecodeEncode holds only under `Round` and with `indices: true`. Without these restrictions it is false; the two counterexample lemmas above show this.
- Decoder.Place: below an array container the test `!currentObject[part]` at `src/index.ts:94` also sees the members of `Array.prototype` (`map`, `push`, `forEach`, ...). For the entries `a[0]=x` and `a[map][y]=z` the source makes `a` the array `["x"]`, finds the truthy inherited function `a.map`, writes `y` onto the shared `Array.prototype.map` and returns `{a: ["x"]}`; the model gives `a` a child container `map` holding `y`. The round trip is not affected, since below an array it only uses decimal indices.
- Decoder.Place / RoundTrip.DecodeEncode: the walk looks only at the properties the tree holds. The test `!currentObject[part]` at `src/index.ts:94` also sees properties inherited from `Object.prototype`. For a key such as `constructor[x]` or `__proto__[p]` the source therefore walks into the shared `Object` function or `Object.prototype` and writes there, and `toObj` returns `{}`; the model instead creates a container under that key. A bare key `__proto__`, or a last segment `__proto__` as in `a[__proto__]`, goes through the `__proto__` setter at `src/index.ts:64`, `:78` or `:88`: a string value is dropped and a file becomes the prototype, so the key never appears in the result; the model stores it as an ordinary key. The round trip is stated only for values satisfying `OwnKeys`, which excludes these names.
- Strings are sequences of Unicode scalar values, while JavaScript strings are UTF-16 code units. So `MatchesDatePattern`, which counts 24 characters, accepts a character outside the Basic Multilingual Plane at position 19, where the JavaScript pattern sees two code units and fails. `split` and `replace` are likewise modelled on characters.
