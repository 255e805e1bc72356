/** What fromObj promises about the entries it appends: which leaves emit and
    with what value, in what order, under which keys. */
module EncoderFacts {
  import opened FormModel
  import opened JsText
  import opened Encoder

  // ---------------------------------------------------------------------------
  // Values: what each leaf contributes, independently of any path

  /** The entry values of a value's leaves, depth first, in key order, with no
      reference to paths: undefined and (when skipped) null give nothing, a
      file is passed on unchanged, every other leaf gives its string. */
  function LeafValues(o: Options, v: Value): seq<EntryVal>
    decreases v, 2
  {
    match v
    case Undef => []
    case Null => if o.nullsAsUndefineds then [] else [Text("")]
    case Bool(b) => [Text(BoolText(o, b))]
    case Num(n) => [Text(IntToString(n))]
    case Str(s) => [Text(s)]
    case Date(iso) => [Text(iso)]
    case Blob(id) => [File(id)]
    case Arr(items) => ItemValues(o, v, |items|)
    case Obj(fields) => FieldValues(o, v, |fields|)
  }

  function ItemValues(o: Options, arr: Value, n: nat): seq<EntryVal>
    requires arr.Arr? && n <= |arr.items|
    decreases arr, 1, n
  {
    if n == 0 then [] else ItemValues(o, arr, n - 1) + LeafValues(o, arr.items[n - 1])
  }

  function FieldValues(o: Options, obj: Value, n: nat): seq<EntryVal>
    requires obj.Obj? && n <= |obj.fields|
    decreases obj, 1, n
  {
    if n == 0 then [] else FieldValues(o, obj, n - 1) + LeafValues(o, obj.fields[n - 1].1)
  }

  function ValuesOf(es: seq<Entry>): seq<EntryVal>
  {
    seq(|es|, i requires 0 <= i < |es| => es[i].1)
  }

  lemma ValuesOfAppend(a: seq<Entry>, b: seq<Entry>)
    ensures ValuesOf(a + b) == ValuesOf(a) + ValuesOf(b)
  {
  }

  /** The values serialize appends are exactly the leaf values, in depth-first
      key order; the notation options change keys only. */
  lemma {:induction false} ValuesInOrder(o: Options, v: Value, path: string)
    ensures ValuesOf(Serialized(o, v, path)) == LeafValues(o, v)
    decreases v, 2
  {
    match v
    case Arr(items) =>
      if |items| > 0 || o.allowEmptyArrays {
        ItemValuesInOrder(o, v, path, |items|);
      }
    case Obj(fields) =>
      FieldValuesInOrder(o, v, path, |fields|);
    case _ =>
  }

  lemma {:induction false} ItemValuesInOrder(o: Options, arr: Value, path: string, n: nat)
    requires arr.Arr? && n <= |arr.items|
    ensures ValuesOf(ItemsUpTo(o, arr, path, n)) == ItemValues(o, arr, n)
    decreases arr, 1, n
  {
    if n > 0 {
      ItemValuesInOrder(o, arr, path, n - 1);
      ValuesInOrder(o, arr.items[n - 1], ItemPath(o, path, n - 1));
      ValuesOfAppend(ItemsUpTo(o, arr, path, n - 1),
                     Serialized(o, arr.items[n - 1], ItemPath(o, path, n - 1)));
    }
  }

  lemma {:induction false} FieldValuesInOrder(o: Options, obj: Value, path: string, n: nat)
    requires obj.Obj? && n <= |obj.fields|
    ensures ValuesOf(FieldsUpTo(o, obj, path, n)) == FieldValues(o, obj, n)
    decreases obj, 1, n
  {
    if n > 0 {
      var key, child := obj.fields[n - 1].0, obj.fields[n - 1].1;
      FieldValuesInOrder(o, obj, path, n - 1);
      ValuesInOrder(o, child, FieldPath(o, path, key));
      ValuesOfAppend(FieldsUpTo(o, obj, path, n - 1), Serialized(o, child, FieldPath(o, path, key)));
    }
  }

  /** One entry per emitting leaf: as many entries as leaf values. */
  lemma EntryCount(o: Options, v: Value, path: string)
    ensures |Serialized(o, v, path)| == |LeafValues(o, v)|
  {
    ValuesInOrder(o, v, path);
  }

  /** The scalar leaves, one by one (src/index.ts:116-127, 137-141, 152-154). */
  lemma ScalarLeaves(o: Options, path: string, b: bool, n: int, s: string, iso: string)
    ensures Serialized(o, Undef, path) == []
    ensures Serialized(o, Null, path) == if o.nullsAsUndefineds then [] else [(path, Text(""))]
    ensures Serialized(o, Bool(b), path)
         == [(path, Text(if o.booleansAsIntegers then (if b then "1" else "0")
                         else (if b then "true" else "false")))]
    ensures Serialized(o, Num(n), path) == [(path, Text(IntToString(n)))]
    ensures Serialized(o, Str(s), path) == [(path, Text(s))]
    ensures Serialized(o, Date(iso), path) == [(path, Text(iso))]
  {
  }

  /** The entries of each `serialize` branch, by the branch `Branch` picks. */
  lemma SerializedByBranch(o: Options, v: Value, path: string)
    ensures Branch(v) == 1 ==> Serialized(o, v, path) == []
    ensures Branch(v) == 2 ==> Serialized(o, v, path) == if o.nullsAsUndefineds then [] else [(path, Text(""))]
    ensures Branch(v) == 3 ==> v.Bool? && Serialized(o, v, path) == [(path, Text(BoolText(o, v.b)))]
    ensures Branch(v) == 4 ==> Serialized(o, v, path) == ItemsUpTo(o, v, path, |v.items|)
    ensures Branch(v) == 5 ==> v.Date? && Serialized(o, v, path) == [(path, Text(v.iso))]
    ensures Branch(v) == 6 ==> v.Blob? && Serialized(o, v, path) == [(FileKey(o, path), File(v.id))]
    ensures Branch(v) == 7 ==> Serialized(o, v, path) == FieldsUpTo(o, v, path, |v.fields|)
    ensures Branch(v) == 8 ==> Serialized(o, v, path) == [(path, Text(StringOf(v)))]
  {
  }

  /** The entries of a list of values all serialized under the same path,
      first value first. */
  function SerializedAll(o: Options, vs: seq<Value>, path: string): seq<Entry>
  {
    if vs == [] then [] else Serialized(o, vs[0], path) + SerializedAll(o, vs[1..], path)
  }

  lemma {:induction false} SerializedAllAppend(o: Options, vs: seq<Value>, v: Value, path: string)
    ensures SerializedAll(o, vs + [v], path) == SerializedAll(o, vs, path) + Serialized(o, v, path)
  {
    if vs != [] {
      assert (vs + [v])[1..] == vs[1..] + [v];
      SerializedAllAppend(o, vs[1..], v, path);
      AppendAssoc(Serialized(o, vs[0], path), SerializedAll(o, vs[1..], path), Serialized(o, v, path));
    }
  }

  /** With noAttributesWithArrayNotation every element is serialized under
      the array's own path, so the first n elements give what they would give
      one after another at that path. */
  lemma {:induction false} NoAttributesFlattens(o: Options, arr: Value, path: string, n: nat)
    requires o.noAttributesWithArrayNotation && arr.Arr? && n <= |arr.items|
    ensures ItemsUpTo(o, arr, path, n) == SerializedAll(o, arr.items[..n], path)
  {
    if n > 0 {
      NoAttributesFlattens(o, arr, path, n - 1);
      assert arr.items[..n] == arr.items[..n - 1] + [arr.items[n - 1]];
      SerializedAllAppend(o, arr.items[..n - 1], arr.items[n - 1], path);
    }
  }

  /** An empty array emits nothing, whatever allowEmptyArrays says: with it
      set, the `forEach` still has no element to visit. */
  lemma EmptyArrayEmitsNothing(o: Options, path: string)
    ensures Serialized(o, Arr([]), path) == []
  {
  }

  // ---------------------------------------------------------------------------
  // Keys

  lemma PrefixTrans(a: string, b: string, c: string)
    requires a <= b && b <= c
    ensures a <= c
  {
    assert c[..|b|][..|a|] == c[..|a|];
  }

  /** Unless file keys are stripped, every key extends the path serialize
      started from: the walk only appends segments. */
  lemma {:induction false} KeysExtendPath(o: Options, v: Value, path: string)
    requires !o.noFilesWithArrayNotation
    ensures forall e :: e in Serialized(o, v, path) ==> path <= e.0
    decreases v, 2
  {
    match v
    case Arr(items) =>
      if |items| > 0 || o.allowEmptyArrays {
        ItemKeysExtendPath(o, v, path, |items|);
      }
    case Obj(fields) =>
      FieldKeysExtendPath(o, v, path, |fields|);
    case _ =>
  }

  lemma {:induction false} ItemKeysExtendPath(o: Options, arr: Value, path: string, n: nat)
    requires !o.noFilesWithArrayNotation
    requires arr.Arr? && n <= |arr.items|
    ensures forall e :: e in ItemsUpTo(o, arr, path, n) ==> path <= e.0
    decreases arr, 1, n
  {
    if n > 0 {
      var child := ItemPath(o, path, n - 1);
      ItemKeysExtendPath(o, arr, path, n - 1);
      KeysExtendPath(o, arr.items[n - 1], child);
      assert path <= child;
      forall e | e in Serialized(o, arr.items[n - 1], child) ensures path <= e.0 {
        PrefixTrans(path, child, e.0);
      }
    }
  }

  lemma {:induction false} FieldKeysExtendPath(o: Options, obj: Value, path: string, n: nat)
    requires !o.noFilesWithArrayNotation
    requires obj.Obj? && n <= |obj.fields|
    ensures forall e :: e in FieldsUpTo(o, obj, path, n) ==> path <= e.0
    decreases obj, 1, n
  {
    if n > 0 {
      var child := FieldPath(o, path, obj.fields[n - 1].0);
      FieldKeysExtendPath(o, obj, path, n - 1);
      KeysExtendPath(o, obj.fields[n - 1].1, child);
      assert path <= child;
      forall e | e in Serialized(o, obj.fields[n - 1].1, child) ensures path <= e.0 {
        PrefixTrans(path, child, e.0);
      }
    }
  }

  /** Whether a value holds no object anywhere inside it. */
  predicate NoObjects(v: Value)
    decreases v
  {
    match v
    case Obj(_) => false
    case Arr(items) => forall i :: 0 <= i < |items| ==> NoObjects(items[i])
    case _ => true
  }

  /** dotsForObjectNotation changes only object joins: a value with no object
      inside it serializes the same either way; array brackets stay. */
  lemma {:induction false} DotsLeaveArraysAlone(o: Options, v: Value, path: string, dots: bool)
    requires NoObjects(v)
    ensures Serialized(o.(dotsForObjectNotation := dots), v, path) == Serialized(o, v, path)
    decreases v, 2
  {
    if v.Arr? && (|v.items| > 0 || o.allowEmptyArrays) {
      ItemsLeaveDotsAlone(o, v, path, dots, |v.items|);
    }
  }

  lemma {:induction false} ItemsLeaveDotsAlone(o: Options, arr: Value, path: string, dots: bool, n: nat)
    requires arr.Arr? && n <= |arr.items| && NoObjects(arr)
    ensures ItemsUpTo(o.(dotsForObjectNotation := dots), arr, path, n) == ItemsUpTo(o, arr, path, n)
    decreases arr, 1, n
  {
    if n > 0 {
      ItemsLeaveDotsAlone(o, arr, path, dots, n - 1);
      DotsLeaveArraysAlone(o, arr.items[n - 1], ItemPath(o, path, n - 1), dots);
    }
  }

  /** With noFilesWithArrayNotation a file that is an array element is
      appended under the array's own key, whether or not indices are written;
      without the option it keeps the element's key. */
  lemma FileInArray(o: Options, id: nat, path: string, index: nat)
    requires !o.noAttributesWithArrayNotation
    ensures Serialized(o, Blob(id), ItemPath(o, path, index))
         == [(if o.noFilesWithArrayNotation then path else ItemPath(o, path, index), File(id))]
  {
    StripsIndexSuffix(path, if o.indices then Decimal(index) else "");
  }

  /** With noFilesWithArrayNotation a file whose path does not end in a
      `[digits]` group keeps its path. */
  lemma FileKeepsPlainPath(o: Options, id: nat, path: string)
    requires o.noFilesWithArrayNotation && !HasIndexSuffix(path)
    ensures Serialized(o, Blob(id), path) == [(path, File(id))]
  {
    KeepsOtherPaths(path);
  }

  /** With noFilesWithArrayNotation a file whose path ends in a `[digits]`
      group loses exactly that one group. */
  lemma FileLosesIndexSuffix(o: Options, id: nat, path: string, digits: string)
    requires o.noFilesWithArrayNotation && AllDigits(digits)
    ensures Serialized(o, Blob(id), path + "[" + digits + "]") == [(path, File(id))]
  {
    StripsIndexSuffix(path, digits);
  }

  // ---------------------------------------------------------------------------
  // Keys as segment lists

  /** In bracket notation an object key is appended as one more bracketed
      segment (used bare at the root). */
  lemma FieldPathInBrackets(o: Options, segs: seq<string>, key: string)
    requires !o.dotsForObjectNotation
    requires segs == [] || segs[0] != ""
    ensures FieldPath(o, BracketPath(segs), key) == BracketPath(segs + [key])
  {
    if segs != [] {
      BracketPathStart(segs);
      assert (segs + [key])[..|segs|] == segs;
    }
  }

  /** In dot notation an object key is appended after a `.`. */
  lemma FieldPathInDots(o: Options, segs: seq<string>, key: string)
    requires o.dotsForObjectNotation
    requires segs == [] || segs[0] != ""
    ensures FieldPath(o, DotPath(segs), key) == DotPath(segs + [key])
  {
    if segs != [] {
      DotPathStart(segs);
      assert (segs + [key])[..|segs|] == segs;
    }
  }

  /** An array element is appended as a bracketed index, or as an empty
      bracket pair when indices are off, in either object notation. */
  lemma ItemPathInBrackets(o: Options, segs: seq<string>, index: nat)
    requires !o.noAttributesWithArrayNotation
    requires segs != []
    ensures ItemPath(o, BracketPath(segs), index)
         == BracketPath(segs + [if o.indices then Decimal(index) else ""])
  {
    var last := if o.indices then Decimal(index) else "";
    assert (segs + [last])[..|segs|] == segs;
  }

  lemma {:induction false} BracketPathStart(segs: seq<string>)
    requires segs != []
    ensures segs[0] <= BracketPath(segs)
  {
    if |segs| > 1 {
      BracketPathStart(segs[..|segs| - 1]);
      PrefixTrans(segs[0], BracketPath(segs[..|segs| - 1]), BracketPath(segs));
    }
  }

  lemma {:induction false} DotPathStart(segs: seq<string>)
    requires segs != []
    ensures segs[0] <= DotPath(segs)
  {
    if |segs| > 1 {
      DotPathStart(segs[..|segs| - 1]);
      PrefixTrans(segs[0], DotPath(segs[..|segs| - 1]), DotPath(segs));
    }
  }
}
