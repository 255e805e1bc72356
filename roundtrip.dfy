/** toObj undoes fromObj, within limits. The encoding must use indexed array
    notation and no other option. Every container below the root must be
    non-empty, and every object key must be a non-empty, bracket-free segment
    that is not numeric below the root, and no key may name a property every
    JavaScript object inherits. Every leaf must be a string the
    decoder leaves alone, or a value it reads back as itself. */
module RoundTrip {
  import opened FormModel
  import opened JsText
  import opened Encoder
  import opened Decoder
  import opened EncoderFacts
  import opened DecoderFacts

  /** `{ indices: true }`: array elements as `path[i]`, object keys as
      `path[key]`. */
  const Indexed: Options := Options(true, false, false, false, false, false, false)

  // ---------------------------------------------------------------------------
  // Which values come back

  /** A leaf the decoder reads back as itself. */
  predicate PlainLeaf(v: Value)
  {
    || v.Bool? || v.Num? || v.Blob?
    || (v.Str? && Coerce(Text(v.s)) == Str(v.s) && !IsNumberText(v.s))
    || (v.Date? && MatchesDatePattern(v.iso))
  }

  /** A key the bracket tokeniser gives back as one segment. */
  predicate Segment(k: string)
  {
    k != "" && FreeOf(k, Brackets)
  }

  /** The properties every plain JavaScript object inherits from
      Object.prototype. toObj's test `!currentObject[part]` sees them on an
      object that has no own property of that name, so a key segment naming
      one leads the walk into the shared prototype objects instead of the
      output. The tree of `Decoder.Place` holds own properties only; the
      round trip is therefore stated for values whose keys avoid these
      names. */
  const ObjectPrototypeNames: set<string> := {
    "constructor", "__proto__", "__defineGetter__", "__defineSetter__",
    "__lookupGetter__", "__lookupSetter__", "hasOwnProperty", "isPrototypeOf",
    "propertyIsEnumerable", "toLocaleString", "toString", "valueOf" }

  /** No object key, at any depth, names an inherited property. */
  predicate OwnKeys(v: Value)
  {
    match v
    case Arr(items) => forall i :: 0 <= i < |items| ==> OwnKeys(items[i])
    case Obj(fields) =>
      forall i :: 0 <= i < |fields| ==> fields[i].0 !in ObjectPrototypeNames && OwnKeys(fields[i].1)
    case _ => true
  }

  /** The values the round trip holds for; `root` marks the outermost object. */
  predicate Round(v: Value, root: bool)
  {
    if v.Arr? then
      && !root && |v.items| > 0
      && forall i :: 0 <= i < |v.items| ==> Round(v.items[i], false)
    else if v.Obj? then
      && (root || |v.fields| > 0)
      && (forall i :: 0 <= i < |v.fields| ==> Segment(v.fields[i].0) && (root || !IsNumberText(v.fields[i].0)))
      && (forall i, j :: 0 <= i < j < |v.fields| ==> v.fields[i].0 != v.fields[j].0)
      && (forall i :: 0 <= i < |v.fields| ==> Round(v.fields[i].1, false))
    else !root && PlainLeaf(v)
  }

  /** The keys under which a container's children are found: positions for
      an array, field keys for an object. */
  function ChildKeys(v: Value): (ks: seq<string>)
    requires v.Arr? || v.Obj?
    ensures |ks| == if v.Arr? then |v.items| else |v.fields|
    ensures forall i :: 0 <= i < |ks| ==> ks[i] == if v.Arr? then Decimal(i) else v.fields[i].0
  {
    if v.Arr? then seq(|v.items|, i requires 0 <= i < |v.items| => Decimal(i))
    else seq(|v.fields|, i requires 0 <= i < |v.fields| => v.fields[i].0)
  }

  lemma ChildKeysDistinct(v: Value, root: bool)
    requires v.Arr? || (v.Obj? && Round(v, root))
    ensures Distinct(ChildKeys(v))
  {
    if v.Arr? {
      forall i, j | 0 <= i < j < |v.items| ensures Decimal(i) != Decimal(j) {
        if Decimal(i) == Decimal(j) {
          DecimalInjective(i, j);
        }
      }
    }
  }

  lemma NotEarlier(ks: seq<string>, n: nat)
    requires Distinct(ks) && 0 < n <= |ks|
    ensures ks[n - 1] !in ks[..n - 1]
  {
    var seen := ks[..n - 1];
    forall i | 0 <= i < n - 1 ensures seen[i] != ks[n - 1] {
    }
  }

  // ---------------------------------------------------------------------------
  // The tree toObj should give back

  /** The decoded form of a value: an array keyed by its positions, an object
      by its keys, a leaf as itself. */
  function ToNode(v: Value): Node
    decreases v, 2
  {
    match v
    case Arr(items) => Container(true, ItemNodes(v, |items|))
    case Obj(fields) => Container(false, FieldNodes(v, |fields|))
    case _ => Leaf(v)
  }

  function ItemNodes(arr: Value, n: nat): map<string, Node>
    requires arr.Arr? && n <= |arr.items|
    decreases arr, 1, n
  {
    if n == 0 then map[] else ItemNodes(arr, n - 1)[Decimal(n - 1) := ToNode(arr.items[n - 1])]
  }

  function FieldNodes(obj: Value, n: nat): map<string, Node>
    requires obj.Obj? && n <= |obj.fields|
    decreases obj, 1, n
  {
    if n == 0 then map[] else FieldNodes(obj, n - 1)[obj.fields[n - 1].0 := ToNode(obj.fields[n - 1].1)]
  }

  lemma {:induction false} ItemNodesKeys(arr: Value, n: nat)
    requires arr.Arr? && n <= |arr.items|
    ensures forall k :: k in ItemNodes(arr, n) <==> k in ChildKeys(arr)[..n]
  {
    if n > 0 {
      ItemNodesKeys(arr, n - 1);
      assert ChildKeys(arr)[..n] == ChildKeys(arr)[..n - 1] + [Decimal(n - 1)];
    }
  }

  lemma {:induction false} FieldNodesKeys(obj: Value, n: nat)
    requires obj.Obj? && n <= |obj.fields|
    ensures forall k :: k in FieldNodes(obj, n) <==> k in ChildKeys(obj)[..n]
  {
    if n > 0 {
      FieldNodesKeys(obj, n - 1);
      assert ChildKeys(obj)[..n] == ChildKeys(obj)[..n - 1] + [obj.fields[n - 1].0];
    }
  }

  // ---------------------------------------------------------------------------
  // Leaves with their paths as segment lists

  type Leaves = seq<(seq<string>, Value)>

  /** Every leaf of a value with the segments that lead to it, depth first in
      key order. */
  function LeafPaths(v: Value): Leaves
    decreases v, 2
  {
    match v
    case Arr(items) => ItemLeafPaths(v, |items|)
    case Obj(fields) => FieldLeafPaths(v, |fields|)
    case _ => [([], v)]
  }

  function ItemLeafPaths(arr: Value, n: nat): Leaves
    requires arr.Arr? && n <= |arr.items|
    decreases arr, 1, n
  {
    if n == 0 then [] else ItemLeafPaths(arr, n - 1) + Under(Decimal(n - 1), LeafPaths(arr.items[n - 1]))
  }

  function FieldLeafPaths(obj: Value, n: nat): Leaves
    requires obj.Obj? && n <= |obj.fields|
    decreases obj, 1, n
  {
    if n == 0 then []
    else FieldLeafPaths(obj, n - 1) + Under(obj.fields[n - 1].0, LeafPaths(obj.fields[n - 1].1))
  }

  /** The same leaves one level down, below the segment k. */
  function Under(k: string, ls: Leaves): (r: Leaves)
    ensures |r| == |ls|
    ensures forall i :: 0 <= i < |ls| ==> r[i] == ([k] + ls[i].0, ls[i].1)
  {
    seq(|ls|, i requires 0 <= i < |ls| => ([k] + ls[i].0, ls[i].1))
  }

  predicate Segments(p: seq<string>)
  {
    forall j :: 0 <= j < |p| ==> Segment(p[j])
  }

  /** Every path is made of segments and leads to a plain leaf, and no two
      paths are the same. */
  predicate WellPathed(ls: Leaves)
  {
    && (forall i :: 0 <= i < |ls| ==> Segments(ls[i].0) && PlainLeaf(ls[i].1))
    && (forall i, j :: 0 <= i < j < |ls| ==> ls[i].0 != ls[j].0)
  }

  /** Every path starts with one of `keys`. */
  predicate StartsIn(ls: Leaves, keys: seq<string>)
  {
    forall i :: 0 <= i < |ls| ==> ls[i].0 != [] && ls[i].0[0] in keys
  }

  lemma UnderWell(k: string, ls: Leaves)
    requires Segment(k) && WellPathed(ls)
    ensures WellPathed(Under(k, ls)) && StartsIn(Under(k, ls), [k])
  {
    var r := Under(k, ls);
    forall i | 0 <= i < |r| ensures Segments(r[i].0) {
      assert forall j :: 1 <= j < |r[i].0| ==> r[i].0[j] == ls[i].0[j - 1];
    }
    forall i, j | 0 <= i < j < |r| ensures r[i].0 != r[j].0 {
      assert r[i].0[1..] == ls[i].0 && r[j].0[1..] == ls[j].0;
    }
  }

  lemma AppendWell(a: Leaves, keys: seq<string>, b: Leaves, k: string)
    requires WellPathed(a) && StartsIn(a, keys)
    requires WellPathed(b) && StartsIn(b, [k]) && k !in keys
    ensures WellPathed(a + b) && StartsIn(a + b, keys + [k])
  {
    var ab := a + b;
    forall i, j | 0 <= i < j < |ab| ensures ab[i].0 != ab[j].0 {
      if i < |a| && j >= |a| {
        assert ab[i].0[0] in keys && ab[j].0[0] == k;
      }
    }
  }

  /** The leaf paths of a value are well formed; below the root there is at
      least one, and the paths of a container start with its child keys, the
      first with the first. */
  lemma {:induction false} LeafPathsWell(v: Value, root: bool)
    requires Round(v, root)
    ensures WellPathed(LeafPaths(v))
    ensures !root ==> |LeafPaths(v)| > 0
    ensures (v.Arr? || v.Obj?) ==> StartsIn(LeafPaths(v), ChildKeys(v))
    ensures (v.Arr? || v.Obj?) && |LeafPaths(v)| > 0 ==> LeafPaths(v)[0].0[0] == ChildKeys(v)[0]
    decreases v, 2
  {
    if v.Arr? {
      ItemLeafPathsWell(v, |v.items|);
      assert ChildKeys(v)[..|v.items|] == ChildKeys(v);
    } else if v.Obj? {
      FieldLeafPathsWell(v, root, |v.fields|);
      assert ChildKeys(v)[..|v.fields|] == ChildKeys(v);
    }
  }

  /** The leaves of one more child, below its own key, keep the paths well
      formed. */
  lemma WellStep(a: Leaves, keys: seq<string>, k: string, ls: Leaves)
    requires WellPathed(a) && StartsIn(a, keys) && k !in keys
    requires Segment(k) && WellPathed(ls) && |ls| > 0
    ensures WellPathed(a + Under(k, ls)) && StartsIn(a + Under(k, ls), keys + [k])
    ensures (a + Under(k, ls))[0].0[0] == if |a| > 0 then a[0].0[0] else k
  {
    UnderWell(k, ls);
    AppendWell(a, keys, Under(k, ls), k);
  }

  /** The n-th child key is new after the first n - 1. */
  lemma NextChildKey(v: Value, root: bool, n: nat)
    requires v.Arr? || (v.Obj? && Round(v, root))
    requires 0 < n <= |ChildKeys(v)|
    ensures ChildKeys(v)[n - 1] !in ChildKeys(v)[..n - 1]
    ensures ChildKeys(v)[..n] == ChildKeys(v)[..n - 1] + [ChildKeys(v)[n - 1]]
  {
    ChildKeysDistinct(v, root);
    NotEarlier(ChildKeys(v), n);
  }

  lemma DecimalSegment(n: nat)
    ensures Segment(Decimal(n))
  {
    var k := Decimal(n);
    forall i | 0 <= i < |k| ensures k[i] !in Brackets {
      assert IsDigit(k[i]);
    }
  }

  lemma {:induction false} ItemLeafPathsWell(arr: Value, n: nat)
    requires arr.Arr? && Round(arr, false) && n <= |arr.items|
    ensures WellPathed(ItemLeafPaths(arr, n))
    ensures StartsIn(ItemLeafPaths(arr, n), ChildKeys(arr)[..n])
    ensures n > 0 ==> |ItemLeafPaths(arr, n)| > 0 && ItemLeafPaths(arr, n)[0].0[0] == Decimal(0)
    decreases arr, 1, n
  {
    if n > 0 {
      ItemLeafPathsWell(arr, n - 1);
      var k, child := Decimal(n - 1), arr.items[n - 1];
      LeafPathsWell(child, false);
      DecimalSegment(n - 1);
      NextChildKey(arr, false, n);
      WellStep(ItemLeafPaths(arr, n - 1), ChildKeys(arr)[..n - 1], k, LeafPaths(child));
    }
  }

  lemma {:induction false} FieldLeafPathsWell(obj: Value, root: bool, n: nat)
    requires obj.Obj? && Round(obj, root) && n <= |obj.fields|
    ensures WellPathed(FieldLeafPaths(obj, n))
    ensures StartsIn(FieldLeafPaths(obj, n), ChildKeys(obj)[..n])
    ensures n > 0 ==> |FieldLeafPaths(obj, n)| > 0 && FieldLeafPaths(obj, n)[0].0[0] == obj.fields[0].0
    decreases obj, 1, n
  {
    if n > 0 {
      FieldLeafPathsWell(obj, root, n - 1);
      var k, child := obj.fields[n - 1].0, obj.fields[n - 1].1;
      LeafPathsWell(child, false);
      NextChildKey(obj, root, n);
      WellStep(FieldLeafPaths(obj, n - 1), ChildKeys(obj)[..n - 1], k, LeafPaths(child));
    }
  }

  // ---------------------------------------------------------------------------
  // The encoder in terms of leaf paths

  /** The entry value serialize appends for a plain leaf. */
  function LeafEntry(v: Value): EntryVal
  {
    match v
    case Blob(id) => File(id)
    case Bool(b) => Text(if b then "true" else "false")
    case Num(n) => Text(IntToString(n))
    case Str(s) => Text(s)
    case Date(iso) => Text(iso)
    case _ => Text("")
  }

  /** The entries for leaves found below `pre`. */
  function Rendered(pre: seq<string>, ls: Leaves): (r: seq<Entry>)
    ensures |r| == |ls|
    ensures forall i :: 0 <= i < |ls| ==> r[i] == (BracketPath(pre + ls[i].0), LeafEntry(ls[i].1))
  {
    seq(|ls|, i requires 0 <= i < |ls| => (BracketPath(pre + ls[i].0), LeafEntry(ls[i].1)))
  }

  lemma RenderedAppend(pre: seq<string>, a: Leaves, b: Leaves)
    ensures Rendered(pre, a + b) == Rendered(pre, a) + Rendered(pre, b)
  {
  }

  lemma RenderedUnder(pre: seq<string>, k: string, ls: Leaves)
    ensures Rendered(pre, Under(k, ls)) == Rendered(pre + [k], ls)
  {
    forall i | 0 <= i < |ls| ensures pre + ([k] + ls[i].0) == pre + [k] + ls[i].0 {
    }
  }

  /** With indices on, serialize emits one entry per leaf, under the bracket
      path of its segments; the root object sits at the empty path. */
  lemma {:induction false} EncodeLeafPaths(v: Value, pre: seq<string>, root: bool)
    requires Round(v, root)
    requires if root then pre == [] else pre != [] && pre[0] != ""
    ensures Serialized(Indexed, v, BracketPath(pre)) == Rendered(pre, LeafPaths(v))
    decreases v, 2
  {
    if v.Arr? {
      ItemsRound(v);
      EncodeItemLeafPaths(v, pre, |v.items|);
    } else if v.Obj? {
      FieldsRound(v, root);
      EncodeFieldLeafPaths(v, pre, |v.fields|);
    } else {
      assert pre + [] == pre;
    }
  }

  /** The child at position i of a container below which the round trip
      holds, and its key. */
  lemma ItemIsRound(arr: Value, i: nat)
    requires arr.Arr? && Round(arr, false) && i < |arr.items|
    ensures Round(arr.items[i], false)
  {
  }

  /** The element at position i holds a value the round trip holds for. */
  predicate ItemRound(arr: Value, i: nat)
    requires arr.Arr? && i < |arr.items|
  {
    Round(arr.items[i], false)
  }

  lemma ItemsRound(arr: Value)
    requires arr.Arr? && Round(arr, false)
    ensures forall i :: 0 <= i < |arr.items| ==> ItemRound(arr, i)
  {
    forall i | 0 <= i < |arr.items|
      ensures ItemRound(arr, i)
    {
      ItemIsRound(arr, i);
    }
  }

  lemma FieldIsRound(obj: Value, root: bool, i: nat)
    requires obj.Obj? && Round(obj, root) && i < |obj.fields|
    ensures Round(obj.fields[i].1, false) && Segment(obj.fields[i].0)
  {
  }

  /** The entries of one more child follow those of the earlier ones. */
  lemma EncodeStep(pre: seq<string>, earlier: Leaves, k: string, ls: Leaves)
    ensures Rendered(pre, earlier) + Rendered(pre + [k], ls) == Rendered(pre, earlier + Under(k, ls))
  {
    RenderedAppend(pre, earlier, Under(k, ls));
    RenderedUnder(pre, k, ls);
  }

  /** The entries of the first n elements are their leaves below `pre`. */
  predicate ItemsRendered(arr: Value, pre: seq<string>, n: nat)
    requires arr.Arr? && n <= |arr.items|
  {
    ItemsUpTo(Indexed, arr, BracketPath(pre), n) == Rendered(pre, ItemLeafPaths(arr, n))
  }

  /** The entries of the first n fields are their leaves below `pre`. */
  predicate FieldsRendered(obj: Value, pre: seq<string>, n: nat)
    requires obj.Obj? && n <= |obj.fields|
  {
    FieldsUpTo(Indexed, obj, BracketPath(pre), n) == Rendered(pre, FieldLeafPaths(obj, n))
  }

  lemma EncodeItemStep(arr: Value, pre: seq<string>, n: nat)
    requires arr.Arr? && 0 < n <= |arr.items|
    requires ItemsRendered(arr, pre, n - 1)
    requires Serialized(Indexed, arr.items[n - 1], BracketPath(pre + [Decimal(n - 1)]))
          == Rendered(pre + [Decimal(n - 1)], LeafPaths(arr.items[n - 1]))
    requires pre != []
    ensures ItemsRendered(arr, pre, n)
  {
    ItemPathInBrackets(Indexed, pre, n - 1);
    EncodeStep(pre, ItemLeafPaths(arr, n - 1), Decimal(n - 1), LeafPaths(arr.items[n - 1]));
  }

  lemma EncodeFieldStep(obj: Value, pre: seq<string>, n: nat)
    requires obj.Obj? && 0 < n <= |obj.fields|
    requires FieldsRendered(obj, pre, n - 1)
    requires Serialized(Indexed, obj.fields[n - 1].1, BracketPath(pre + [obj.fields[n - 1].0]))
          == Rendered(pre + [obj.fields[n - 1].0], LeafPaths(obj.fields[n - 1].1))
    requires pre == [] || pre[0] != ""
    ensures FieldsRendered(obj, pre, n)
  {
    FieldPathInBrackets(Indexed, pre, obj.fields[n - 1].0);
    EncodeStep(pre, FieldLeafPaths(obj, n - 1), obj.fields[n - 1].0, LeafPaths(obj.fields[n - 1].1));
  }

  lemma {:induction false} EncodeItemLeafPaths(arr: Value, pre: seq<string>, n: nat)
    requires arr.Arr? && n <= |arr.items| && pre != [] && pre[0] != ""
    requires forall i :: 0 <= i < n ==> ItemRound(arr, i)
    ensures ItemsRendered(arr, pre, n)
    decreases arr, 1, n
  {
    if n > 0 {
      EncodeItemLeafPaths(arr, pre, n - 1);
      EncodeItem(arr, pre, n);
    }
  }

  /** The entries of the n-th element are its leaves below its index. */
  lemma {:induction false} EncodeItem(arr: Value, pre: seq<string>, n: nat)
    requires arr.Arr? && 0 < n <= |arr.items| && ItemRound(arr, n - 1) && pre != [] && pre[0] != ""
    requires ItemsRendered(arr, pre, n - 1)
    ensures ItemsRendered(arr, pre, n)
    decreases arr, 0
  {
    EncodeLeafPaths(arr.items[n - 1], pre + [Decimal(n - 1)], false);
    EncodeItemStep(arr, pre, n);
  }

  /** The field at position i holds a value the round trip holds for, under
      a key that is one segment. */
  predicate FieldRound(obj: Value, i: nat)
    requires obj.Obj? && i < |obj.fields|
  {
    Round(obj.fields[i].1, false) && Segment(obj.fields[i].0)
  }

  lemma FieldsRound(obj: Value, root: bool)
    requires obj.Obj? && Round(obj, root)
    ensures forall i :: 0 <= i < |obj.fields| ==> FieldRound(obj, i)
  {
    forall i | 0 <= i < |obj.fields|
      ensures FieldRound(obj, i)
    {
      FieldIsRound(obj, root, i);
    }
  }

  lemma {:induction false} EncodeFieldLeafPaths(obj: Value, pre: seq<string>, n: nat)
    requires obj.Obj? && n <= |obj.fields| && (pre == [] || pre[0] != "")
    requires forall i :: 0 <= i < n ==> FieldRound(obj, i)
    ensures FieldsRendered(obj, pre, n)
    decreases obj, 1, n
  {
    if n > 0 {
      EncodeFieldLeafPaths(obj, pre, n - 1);
      EncodeField(obj, pre, n);
    }
  }

  /** The entries of the n-th field are its leaves below its key. */
  lemma {:induction false} EncodeField(obj: Value, pre: seq<string>, n: nat)
    requires obj.Obj? && 0 < n <= |obj.fields| && FieldRound(obj, n - 1)
    requires pre == [] || pre[0] != ""
    requires FieldsRendered(obj, pre, n - 1)
    ensures FieldsRendered(obj, pre, n)
    decreases obj, 0
  {
    var k := obj.fields[n - 1].0;
    assert (pre + [k])[0] != "";
    EncodeLeafPaths(obj.fields[n - 1].1, pre + [k], false);
    EncodeFieldStep(obj, pre, n);
  }

  // ---------------------------------------------------------------------------
  // The decoder in terms of leaf paths

  /** Storing the leaves one after another, as the key loop of toObj does. */
  function PlaceSeq(m: map<string, Node>, ls: Leaves): Result<map<string, Node>, DecodeError>
  {
    if ls == [] then Ok(m)
    else
      match PlaceSeq(m, ls[..|ls| - 1])
      case Err(e) => Err(e)
      case Ok(m') => Place(m', ls[|ls| - 1].0, ls[|ls| - 1].1)
  }

  function Then(r: Result<map<string, Node>, DecodeError>, ls: Leaves): Result<map<string, Node>, DecodeError>
  {
    match r
    case Err(e) => Err(e)
    case Ok(m) => PlaceSeq(m, ls)
  }

  lemma {:induction false} PlaceSeqAppend(m: map<string, Node>, a: Leaves, b: Leaves)
    ensures PlaceSeq(m, a + b) == Then(PlaceSeq(m, a), b)
    decreases |b|
  {
    if b == [] {
      assert a + b == a;
    } else {
      var b' := b[..|b| - 1];
      assert (a + b)[..|a + b| - 1] == a + b';
      PlaceSeqAppend(m, a, b');
    }
  }

  /** The container `m[p]` after a change to its properties. */
  function Into(m: map<string, Node>, p: string, isArray: bool, r: Result<map<string, Node>, DecodeError>): Result<map<string, Node>, DecodeError>
  {
    match r
    case Err(e) => Err(e)
    case Ok(kids) => Ok(m[p := Container(isArray, kids)])
  }

  /** A path below p, with a container already at p, is stored inside it. */
  lemma PlaceDescends(m: map<string, Node>, p: string, isArray: bool, kids: map<string, Node>, path: seq<string>, leaf: Value)
    requires p in m && m[p] == Container(isArray, kids) && path != []
    ensures Place(m, [p] + path, leaf) == Into(m, p, isArray, Place(kids, path, leaf))
  {
    assert ([p] + path)[1..] == path;
  }

  /** Leaves below p, with a container already at p, are stored inside it. */
  lemma {:induction false} PlaceSeqDescends(m: map<string, Node>, p: string, isArray: bool, kids: map<string, Node>, ls: Leaves)
    requires p in m && m[p] == Container(isArray, kids)
    requires forall i :: 0 <= i < |ls| ==> ls[i].0 != []
    ensures PlaceSeq(m, Under(p, ls)) == Into(m, p, isArray, PlaceSeq(kids, ls))
    decreases |ls|
  {
    if ls == [] {
      assert m[p := Container(isArray, kids)] == m;
    } else {
      var init, last := ls[..|ls| - 1], ls[|ls| - 1];
      assert Under(p, ls)[..|ls| - 1] == Under(p, init);
      PlaceSeqDescends(m, p, isArray, kids, init);
      var before := PlaceSeq(kids, init);
      if before.Ok? {
        var m1 := m[p := Container(isArray, before.value)];
        PlaceDescends(m1, p, isArray, before.value, last.0, last.1);
        var after := Place(before.value, last.0, last.1);
        if after.Ok? {
          assert m1[p := Container(isArray, after.value)] == m[p := Container(isArray, after.value)];
        }
      }
    }
  }

  /** Leaves below a missing slot p behave as if an empty container of the
      kind chosen by the first leaf's next segment were already there. */
  lemma PlaceSeqCreates(m: map<string, Node>, p: string, ls: Leaves)
    requires p !in m && |ls| > 0
    requires forall i :: 0 <= i < |ls| ==> ls[i].0 != []
    ensures PlaceSeq(m, Under(p, ls)) == PlaceSeq(m[p := NewContainer(ls[0].0[0])], Under(p, ls))
  {
    var all := Under(p, ls);
    var m' := m[p := NewContainer(ls[0].0[0])];
    assert all == [all[0]] + all[1..];
    PlaceSeqAppend(m, [all[0]], all[1..]);
    PlaceSeqAppend(m', [all[0]], all[1..]);
    assert [all[0]][..0] == [];
    assert all[0].0[1..] == ls[0].0;
    match Place(map[], ls[0].0, ls[0].1)
    case Err(_) =>
    case Ok(kids) =>
      assert m'[p := Container(IsNumberText(ls[0].0[0]), kids)] == m[p := Container(IsNumberText(ls[0].0[0]), kids)];
  }

  /** Leaves that all lie below p, stored where p is missing, build at p the
      container of the kind the first leaf's next segment calls for. */
  lemma PlaceContainer(m: map<string, Node>, p: string, ls: Leaves, isArray: bool, kids: map<string, Node>)
    requires p !in m && |ls| > 0
    requires forall i :: 0 <= i < |ls| ==> ls[i].0 != []
    requires IsNumberText(ls[0].0[0]) == isArray
    requires PlaceSeq(map[], ls) == Ok(kids)
    ensures PlaceSeq(m, Under(p, ls)) == Ok(m[p := Container(isArray, kids)])
  {
    PlaceSeqCreates(m, p, ls);
    var m' := m[p := NewContainer(ls[0].0[0])];
    PlaceSeqDescends(m', p, isArray, map[], ls);
    assert m'[p := Container(isArray, kids)] == m[p := Container(isArray, kids)];
  }

  /** The first leaf path of a container below the root starts with its first
      child key, and every path has a first segment. */
  lemma LeafPathsStart(v: Value)
    requires (v.Arr? || v.Obj?) && Round(v, false)
    ensures |LeafPaths(v)| > 0 && LeafPaths(v)[0].0 != []
    ensures LeafPaths(v)[0].0[0] == ChildKeys(v)[0]
    ensures forall i :: 0 <= i < |LeafPaths(v)| ==> LeafPaths(v)[i].0 != []
  {
    LeafPathsWell(v, false);
  }

  /** Storing the leaves of a value below a missing slot p puts the value's
      tree at p. */
  lemma {:induction false} PlaceValue(m: map<string, Node>, p: string, v: Value)
    requires Round(v, false) && p !in m
    ensures PlaceSeq(m, Under(p, LeafPaths(v))) == Ok(m[p := ToNode(v)])
    decreases v, 3
  {
    if v.Arr? {
      PlaceArray(m, p, v);
    } else if v.Obj? {
      PlaceObject(m, p, v);
    } else {
      assert [p] + [] == [p];
      assert Under(p, LeafPaths(v)) == [([p], v)];
      assert [([p], v)][..0] == [];
    }
  }

  lemma {:induction false} PlaceArray(m: map<string, Node>, p: string, arr: Value)
    requires arr.Arr? && Round(arr, false) && p !in m
    ensures PlaceSeq(m, Under(p, LeafPaths(arr))) == Ok(m[p := ToNode(arr)])
    decreases arr, 2
  {
    LeafPathsStart(arr);
    AllDigitsNumeric(Decimal(0));
    NumericIsNumberText(Decimal(0));
    ItemsRound(arr);
    PlaceItems(arr, |arr.items|);
    PlaceContainer(m, p, LeafPaths(arr), true, ItemNodes(arr, |arr.items|));
  }

  lemma {:induction false} PlaceObject(m: map<string, Node>, p: string, obj: Value)
    requires obj.Obj? && Round(obj, false) && p !in m
    ensures PlaceSeq(m, Under(p, LeafPaths(obj))) == Ok(m[p := ToNode(obj)])
    decreases obj, 2
  {
    LeafPathsStart(obj);
    FieldsReady(obj, false);
    PlaceFields(obj, |obj.fields|);
    PlaceContainer(m, p, LeafPaths(obj), false, FieldNodes(obj, |obj.fields|));
  }

  lemma FreshItemKey(arr: Value, n: nat)
    requires arr.Arr? && 0 < n <= |arr.items|
    ensures Decimal(n - 1) !in ItemNodes(arr, n - 1)
  {
    ItemNodesKeys(arr, n - 1);
    ChildKeysDistinct(arr, false);
    NotEarlier(ChildKeys(arr), n);
  }

  lemma FreshFieldKey(obj: Value, root: bool, n: nat)
    requires obj.Obj? && Round(obj, root) && 0 < n <= |obj.fields|
    ensures obj.fields[n - 1].0 !in FieldNodes(obj, n - 1)
  {
    FieldNodesKeys(obj, n - 1);
    ChildKeysDistinct(obj, root);
    NotEarlier(ChildKeys(obj), n);
  }

  /** One more child stored after the earlier ones. */
  lemma PlaceStep(before: map<string, Node>, earlier: Leaves, k: string, leaves: Leaves, node: Node)
    requires PlaceSeq(map[], earlier) == Ok(before)
    requires PlaceSeq(before, Under(k, leaves)) == Ok(before[k := node])
    ensures PlaceSeq(map[], earlier + Under(k, leaves)) == Ok(before[k := node])
  {
    PlaceSeqAppend(map[], earlier, Under(k, leaves));
  }

  /** Storing the leaves of the first n elements, from an empty container,
      builds the trees of those elements under their indices. */
  predicate ItemsPlaced(arr: Value, n: nat)
    requires arr.Arr? && n <= |arr.items|
  {
    PlaceSeq(map[], ItemLeafPaths(arr, n)) == Ok(ItemNodes(arr, n))
  }

  /** Storing the leaves of the first n fields, from an empty container,
      builds the trees of those fields under their keys. */
  predicate FieldsPlaced(obj: Value, n: nat)
    requires obj.Obj? && n <= |obj.fields|
  {
    PlaceSeq(map[], FieldLeafPaths(obj, n)) == Ok(FieldNodes(obj, n))
  }

  lemma {:induction false} PlaceItems(arr: Value, n: nat)
    requires arr.Arr? && n <= |arr.items|
    requires forall i :: 0 <= i < n ==> ItemRound(arr, i)
    ensures ItemsPlaced(arr, n)
    decreases arr, 1, n
  {
    if n > 0 {
      PlaceItems(arr, n - 1);
      PlaceItem(arr, n);
    }
  }

  /** The leaves of the n-th element, stored after the earlier elements, put
      the element's tree at its index. */
  lemma {:induction false} PlaceItem(arr: Value, n: nat)
    requires arr.Arr? && 0 < n <= |arr.items| && ItemRound(arr, n - 1)
    requires ItemsPlaced(arr, n - 1)
    ensures ItemsPlaced(arr, n)
    decreases arr, 0
  {
    FreshItemKey(arr, n);
    PlaceValue(ItemNodes(arr, n - 1), Decimal(n - 1), arr.items[n - 1]);
    PlaceItemStep(arr, n);
  }

  lemma PlaceItemStep(arr: Value, n: nat)
    requires arr.Arr? && 0 < n <= |arr.items|
    requires ItemsPlaced(arr, n - 1)
    requires PlaceSeq(ItemNodes(arr, n - 1), Under(Decimal(n - 1), LeafPaths(arr.items[n - 1])))
          == Ok(ItemNodes(arr, n - 1)[Decimal(n - 1) := ToNode(arr.items[n - 1])])
    ensures ItemsPlaced(arr, n)
  {
    PlaceStep(ItemNodes(arr, n - 1), ItemLeafPaths(arr, n - 1), Decimal(n - 1), LeafPaths(arr.items[n - 1]), ToNode(arr.items[n - 1]));
  }

  /** The field at position i holds a value the round trip holds for, under
      a key none of the earlier fields has. */
  predicate FieldReady(obj: Value, i: nat)
    requires obj.Obj? && i < |obj.fields|
  {
    Round(obj.fields[i].1, false) && obj.fields[i].0 !in FieldNodes(obj, i)
  }

  lemma FieldsReady(obj: Value, root: bool)
    requires obj.Obj? && Round(obj, root)
    ensures forall i :: 0 <= i < |obj.fields| ==> FieldReady(obj, i)
  {
    forall i | 0 <= i < |obj.fields|
      ensures FieldReady(obj, i)
    {
      FreshFieldKey(obj, root, i + 1);
      FieldIsRound(obj, root, i);
    }
  }

  lemma {:induction false} PlaceFields(obj: Value, n: nat)
    requires obj.Obj? && n <= |obj.fields|
    requires forall i :: 0 <= i < n ==> FieldReady(obj, i)
    ensures FieldsPlaced(obj, n)
    decreases obj, 1, n
  {
    if n > 0 {
      PlaceFields(obj, n - 1);
      PlaceField(obj, n);
    }
  }

  /** The leaves of the n-th field, stored after the earlier fields, put the
      field's tree under its key. */
  lemma {:induction false} PlaceField(obj: Value, n: nat)
    requires obj.Obj? && 0 < n <= |obj.fields| && FieldReady(obj, n - 1)
    requires FieldsPlaced(obj, n - 1)
    ensures FieldsPlaced(obj, n)
    decreases obj, 0
  {
    PlaceValue(FieldNodes(obj, n - 1), obj.fields[n - 1].0, obj.fields[n - 1].1);
    PlaceFieldStep(obj, n);
  }

  lemma PlaceFieldStep(obj: Value, n: nat)
    requires obj.Obj? && 0 < n <= |obj.fields|
    requires FieldsPlaced(obj, n - 1)
    requires PlaceSeq(FieldNodes(obj, n - 1), Under(obj.fields[n - 1].0, LeafPaths(obj.fields[n - 1].1)))
          == Ok(FieldNodes(obj, n - 1)[obj.fields[n - 1].0 := ToNode(obj.fields[n - 1].1)])
    ensures FieldsPlaced(obj, n)
  {
    PlaceStep(FieldNodes(obj, n - 1), FieldLeafPaths(obj, n - 1), obj.fields[n - 1].0, LeafPaths(obj.fields[n - 1].1), ToNode(obj.fields[n - 1].1));
  }

  lemma AllDigitsNumeric(s: string)
    requires AllDigits(s)
    ensures IsNumeric(s)
  {
  }

  /** The i-th entry reads back as the i-th leaf: its key tokenises to the
      leaf's path and its collapsed value coerces to the leaf. */
  predicate ReadsAs(c: Collapsed, es: seq<Entry>, ls: Leaves, i: nat)
    requires i < |es| && i < |ls|
  {
    es[i].0 in c.last && Tokenise(es[i].0, false) == ls[i].0 && Coerce(c.last[es[i].0]) == ls[i].1
  }

  /** The key loop of toObj over the collapsed entries is PlaceSeq over the
      leaves those entries came from. */
  lemma {:induction false} KeyLoopIsPlaceSeq(c: Collapsed, es: seq<Entry>, ls: Leaves, n: nat)
    requires n <= |es| == |ls|
    requires Stored(c) && c.order == Keys(es)
    requires forall i :: 0 <= i < |es| ==> ReadsAs(c, es, ls, i)
    ensures PlaceUpTo(c, n, false) == PlaceSeq(map[], ls[..n])
  {
    if n > 0 {
      KeyLoopIsPlaceSeq(c, es, ls, n - 1);
      assert ReadsAs(c, es, ls, n - 1);
      assert c.order[n - 1] == es[n - 1].0;
      assert ls[..n][..n - 1] == ls[..n - 1];
      assert ls[..n][n - 1] == ls[n - 1];
    }
  }

  // ---------------------------------------------------------------------------
  // Leaves read back

  lemma NonEmptyKeeps(p: seq<string>)
    requires forall j :: 0 <= j < |p| ==> p[j] != ""
    ensures NonEmpty(p) == p
  {
    if p != [] {
      NonEmptyKeeps(p[1..]);
    }
  }

  /** The bracket path of segments tokenises back to the segments. */
  lemma TokenisePath(p: seq<string>)
    requires Segments(p)
    ensures Tokenise(BracketPath(p), false) == p
  {
    SplitBracketPath(p);
    NonEmptyKeeps(p);
  }

  /** A plain leaf's entry value is coerced back to the leaf. */
  lemma LeafReadsBack(v: Value)
    requires PlainLeaf(v)
    ensures Coerce(LeafEntry(v)) == v
  {
    match v
    case Num(n) => NumberReadsBack(n);
    case Date(iso) => DateReadsBack(iso);
    case _ =>
  }

  // ---------------------------------------------------------------------------
  // The round trip

  /** Entries under distinct, well-formed paths decode to the fold of their
      leaves, wrapped in the root object. */
  lemma DecodeLeaves(ls: Leaves)
    requires WellPathed(ls)
    ensures Decode(Rendered([], ls), false)
         == match PlaceSeq(map[], ls) case Err(e) => Err(e) case Ok(m) => Ok(Container(false, m))
  {
    var es := Rendered([], ls);
    forall i | 0 <= i < |es| ensures Tokenise(es[i].0, false) == ls[i].0 && Coerce(es[i].1) == ls[i].1 {
      assert [] + ls[i].0 == ls[i].0;
      TokenisePath(ls[i].0);
      LeafReadsBack(ls[i].1);
    }
    assert Distinct(Keys(es)) by {
      forall i, j | 0 <= i < j < |es| ensures Keys(es)[i] != Keys(es)[j] {
        assert Tokenise(es[i].0, false) == ls[i].0 && Tokenise(es[j].0, false) == ls[j].0;
      }
    }
    FlatCollapse(es);
    var c := Collapse(es);
    forall i | 0 <= i < |es| ensures ReadsAs(c, es, ls, i) {
    }
    KeyLoopIsPlaceSeq(c, es, ls, |es|);
    assert ls[..|es|] == ls;
  }

  /** toObj(fromObj(v, { indices: true })) gives back v's tree. The proof
      does not use OwnKeys(v): it is there because the source, unlike the
      model's walk, reads inherited properties (see ObjectPrototypeNames). */
  lemma DecodeEncode(v: Value)
    requires v.Obj? && Round(v, true) && OwnKeys(v)
    ensures Decode(Encode(Indexed, v), false) == Ok(ToNode(v))
  {
    EncodeLeafPaths(v, [], true);
    LeafPathsWell(v, true);
    DecodeLeaves(LeafPaths(v));
    FieldsReady(v, true);
    PlaceFields(v, |v.fields|);
  }

  /** The same through the two methods: what FromObj appends, ToObj reads back. */
  method EncodeThenDecode(v: Value) returns (r: Result<Node, DecodeError>)
    requires v.Obj? && Round(v, true) && OwnKeys(v)
    ensures r == Ok(ToNode(v))
  {
    var options := new CallerOptions();
    options.indices := Some(true);
    var formData := FromObj(v, options);
    assert formData.entries == Encode(Indexed, v);
    r := ToObj(formData.entries, false);
    DecodeEncode(v);
  }

  // ---------------------------------------------------------------------------
  // Where the round trip does not hold

  /** Every option false, as fromObj defaults them. */
  const Defaults: Options := Options(false, false, false, false, false, false, false)

  /** A null is encoded as "", which the decoder reads as 0. */
  lemma NullComesBackAsZero()
    ensures Encode(Indexed, Obj([("a", Null)])) == [("a", Text(""))]
    ensures Decode([("a", Text(""))], false) == Ok(Container(false, map["a" := Leaf(Num(0))]))
  {
    OneFlatEntry("a", Text(""));
    EmptyIsZero();
  }

  /** Without indices the elements of an array share the key `a[]`, so only
      the last survives, as a scalar. */
  lemma DefaultArraysCollapse()
    ensures Encode(Defaults, Obj([("a", Arr([Str("x"), Str("y")]))])) == [("a[]", Text("x")), ("a[]", Text("y"))]
    ensures Decode([("a[]", Text("x")), ("a[]", Text("y"))], false) == Ok(Container(false, map["a" := Leaf(Str("y"))]))
  {
    DefaultArraysEncode();
    DefaultArraysDecode();
  }

  lemma DefaultArraysEncode()
    ensures Encode(Defaults, Obj([("a", Arr([Str("x"), Str("y")]))])) == [("a[]", Text("x")), ("a[]", Text("y"))]
  {
    var arr := Arr([Str("x"), Str("y")]);
    assert ItemPath(Defaults, "a", 0) == "a[]" && ItemPath(Defaults, "a", 1) == "a[]";
    assert ItemsUpTo(Defaults, arr, "a", 1) == [] + [("a[]", Text("x"))];
    assert ItemsUpTo(Defaults, arr, "a", 2) == ItemsUpTo(Defaults, arr, "a", 1) + [("a[]", Text("y"))];
    assert FieldsUpTo(Defaults, Obj([("a", arr)]), "", 1) == [] + Serialized(Defaults, arr, "a");
  }

  lemma DefaultArraysDecode()
    ensures Decode([("a[]", Text("x")), ("a[]", Text("y"))], false) == Ok(Container(false, map["a" := Leaf(Str("y"))]))
  {
    var es := [("a[]", Text("x")), ("a[]", Text("y"))];
    assert CollapseUpTo(es, 1) == Assign(Collapsed([], map[]), "a[]", Text("x"));
    assert [] + ["a[]"] == ["a[]"];
    assert CollapseUpTo(es, 2) == Assign(CollapseUpTo(es, 1), "a[]", Text("y"));
    TrailingBracketsIgnored("a");
    SimpleKeyTokens("a", false);
    assert "a" + "[]" == "a[]";
    StaysString("y");
    assert !IsNumeric("y") by { assert !IsDigit("y"[0]); }
    assert !MatchesDatePattern("y");
    var c := Collapse(es);
    assert PlaceUpTo(c, 1, false) == Place(map[], ["a"], Str("y"));
  }

  /** A form with the single entry (key, value), key one bracket segment,
      decodes to an object holding the coerced value under that key. */
  lemma OneFlatEntry(key: string, value: EntryVal)
    requires key != "" && FreeOf(key, Brackets)
    ensures Decode([(key, value)], false) == Ok(Container(false, map[key := Leaf(Coerce(value))]))
  {
    var es := [(key, value)];
    assert CollapseUpTo(es, 1) == Assign(Collapsed([], map[]), key, value);
    assert [] + [key] == [key];
    SimpleKeyTokens(key, false);
    assert PlaceUpTo(Collapse(es), 1, false) == Place(map[], [key], Coerce(value));
  }
}
