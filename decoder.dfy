/** toObj (src/index.ts:60-102): the form entries are first collapsed to one
    value per distinct key, then every key is cut into segments and its
    coerced value is stored at the end of that path in a tree of objects and
    arrays that is built on demand. */
module Decoder {
  import opened FormModel
  import opened JsText

  /** The tree toObj builds. Its leaves are coerced scalars. Array containers
      are keyed by strings like objects are, since the decoder assigns array
      elements by string index and may leave gaps. */
  datatype Node = Leaf(v: Value) | Container(isArray: bool, kids: map<string, Node>)

  /** Where JavaScript would be asked to store a property on a truthy scalar
      (a string, number, true, date or file) found on the way down. */
  datatype DecodeError = Blocked(key: string, segment: string)

  // ---------------------------------------------------------------------------
  // Step 1: one value per key, last write wins (src/index.ts:61-68)

  /** The accumulator object after the `reduce`: its keys in insertion order
      and the value stored under each. */
  datatype Collapsed = Collapsed(order: seq<string>, last: map<string, EntryVal>)

  /** `obj[key] = value` on the accumulator: a new key goes to the end of the
      key order, an existing one keeps its place and takes the new value. */
  function Assign(c: Collapsed, key: string, value: EntryVal): Collapsed
  {
    Collapsed(if key in c.last then c.order else c.order + [key], c.last[key := value])
  }

  /** The accumulator after the first n entries. */
  function CollapseUpTo(entries: seq<Entry>, n: nat): Collapsed
    requires n <= |entries|
  {
    if n == 0 then Collapsed([], map[])
    else Assign(CollapseUpTo(entries, n - 1), entries[n - 1].0, entries[n - 1].1)
  }

  function Collapse(entries: seq<Entry>): Collapsed
  {
    CollapseUpTo(entries, |entries|)
  }

  /** Every key in the key order has a stored value. */
  predicate Stored(c: Collapsed)
  {
    forall i :: 0 <= i < |c.order| ==> c.order[i] in c.last
  }

  /** The `reduce` at src/index.ts:62-68, as a loop over the entries. */
  method CollapseEntries(entries: seq<Entry>) returns (order: seq<string>, last: map<string, EntryVal>)
    ensures Collapsed(order, last) == Collapse(entries)
  {
    order, last := [], map[];
    var n := 0;
    while n < |entries|
      invariant 0 <= n <= |entries|
      invariant Collapsed(order, last) == CollapseUpTo(entries, n)
    {
      var key, value := entries[n].0, entries[n].1;
      if key !in last {
        order := order + [key];
      }
      last := last[key := value];
      n := n + 1;
    }
  }

  // ---------------------------------------------------------------------------
  // Step 2: segments (src/index.ts:71)

  function Tokenise(key: string, dots: bool): seq<string>
  {
    if dots then SplitDots(key) else SplitBrackets(key)
  }

  // ---------------------------------------------------------------------------
  // Step 4: leaf coercion (src/index.ts:76-92)

  /** Files pass through; strings are tried as booleans, null, a number and
      a date, in that order, and otherwise stay strings. */
  function Coerce(value: EntryVal): (r: Value)
    ensures r.Null? || r.Bool? || r.Num? || r.Str? || r.Date? || r.Blob?
    ensures value.File? <==> r.Blob?
  {
    match value
    case File(id) => Blob(id)
    case Text(s) =>
      if s == "true" then Bool(true)
      else if s == "false" then Bool(false)
      else if s == "null" then Null
      else if IsNumeric(s) then Num(ParseNumber(s))
      else if MatchesDatePattern(s) then Date(s)
      else Str(s)
  }

  // ---------------------------------------------------------------------------
  // Step 3: the walk down a key's segments (src/index.ts:72-98)

  /** JavaScript truthiness of what a slot holds. */
  predicate Truthy(n: Node)
  {
    match n
    case Container(_, _) => true
    case Leaf(v) =>
      match v
      case Undef => false
      case Null => false
      case Bool(b) => b
      case Num(x) => x != 0
      case Str(s) => s != ""
      case _ => true
  }

  /** The container created for a missing or falsy slot: an array when
      `Number(next)` is not NaN, an object otherwise. */
  function NewContainer(next: string): Node
  {
    Container(IsNumberText(next), map[])
  }

  /** What sits at the end of a path, following containers only. */
  function Lookup(m: map<string, Node>, path: seq<string>): Option<Node>
    decreases |path|
  {
    if path == [] || path[0] !in m then None
    else if |path| == 1 then Some(m[path[0]])
    else
      match m[path[0]]
      case Leaf(_) => None
      case Container(_, kids) => Lookup(kids, path[1..])
  }

  /** Stores `leaf` at the end of `parts` inside the container whose
      properties are `cur`, creating a container for a missing or falsy slot
      and reusing an existing one; fails on a truthy scalar in the way. */
  function Place(cur: map<string, Node>, parts: seq<string>, leaf: Value): (r: Result<map<string, Node>, DecodeError>)
    ensures parts == [] ==> r == Ok(cur)
    decreases |parts|
  {
    if parts == [] then Ok(cur)
    else if |parts| == 1 then Ok(cur[parts[0] := Leaf(leaf)])
    else
      var part := parts[0];
      var slot := if part in cur && Truthy(cur[part]) then cur[part] else NewContainer(parts[1]);
      match slot
      case Leaf(_) => Err(Blocked(part, parts[1]))
      case Container(isArray, kids) =>
        match Place(kids, parts[1..], leaf)
        case Err(e) => Err(e)
        case Ok(kids') => Ok(cur[part := Container(isArray, kids')])
  }

  /** Storing along a path changes the slot of its first segment and no other. */
  lemma PlaceFrame(cur: map<string, Node>, parts: seq<string>, leaf: Value)
    requires parts != [] && Place(cur, parts, leaf).Ok?
    ensures parts[0] in Place(cur, parts, leaf).value
    ensures forall k :: k != parts[0] ==>
      (k in Place(cur, parts, leaf).value <==> k in cur)
      && (k in cur ==> Place(cur, parts, leaf).value[k] == cur[k])
  {
  }

  /** The stored leaf is found again along its path. */
  lemma {:induction false} PlaceThenLookup(cur: map<string, Node>, parts: seq<string>, leaf: Value)
    requires parts != [] && Place(cur, parts, leaf).Ok?
    ensures Lookup(Place(cur, parts, leaf).value, parts) == Some(Leaf(leaf))
    decreases |parts|
  {
    if |parts| > 1 {
      var part := parts[0];
      var slot := if part in cur && Truthy(cur[part]) then cur[part] else NewContainer(parts[1]);
      PlaceThenLookup(slot.kids, parts[1..], leaf);
    }
  }

  // ---------------------------------------------------------------------------
  // The whole decoder

  /** The output after the first n keys of the collapsed entries. */
  function PlaceUpTo(c: Collapsed, n: nat, dots: bool): Result<map<string, Node>, DecodeError>
    requires Stored(c) && n <= |c.order|
  {
    if n == 0 then Ok(map[])
    else
      match PlaceUpTo(c, n - 1, dots)
      case Err(e) => Err(e)
      case Ok(output) =>
        var key := c.order[n - 1];
        Place(output, Tokenise(key, dots), Coerce(c.last[key]))
  }

  /** toObj as a function; the root is always an object. */
  function Decode(source: seq<Entry>, dots: bool): (r: Result<Node, DecodeError>)
    ensures r.Ok? ==> r.value.Container? && !r.value.isArray
  {
    var c := Collapse(source);
    CollapseStored(source, |source|);
    match PlaceUpTo(c, |c.order|, dots)
    case Err(e) => Err(e)
    case Ok(output) => Ok(Container(false, output))
  }

  lemma {:induction false} CollapseStored(entries: seq<Entry>, n: nat)
    requires n <= |entries|
    ensures Stored(CollapseUpTo(entries, n))
  {
    if n > 0 {
      CollapseStored(entries, n - 1);
    }
  }

  /** Once a key cannot be stored, the decoder fails with that error. */
  lemma {:induction false} ErrorPersists(c: Collapsed, n: nat, m: nat, dots: bool)
    requires Stored(c) && n <= m <= |c.order|
    requires PlaceUpTo(c, n, dots).Err?
    ensures PlaceUpTo(c, m, dots) == PlaceUpTo(c, n, dots)
    decreases m - n
  {
    if n < m {
      ErrorPersists(c, n + 1, m, dots);
    }
  }

  /** The second `reduce` (src/index.ts:70-101): every collapsed key in turn
      is stored into the output; once a key cannot be stored, that error is
      the result and no later key is stored. */
  method PlaceAll(c: Collapsed, dots: bool) returns (r: Result<map<string, Node>, DecodeError>)
    requires Stored(c)
    ensures r == PlaceUpTo(c, |c.order|, dots)
  {
    r := Ok(map[]);
    var n := 0;
    while n < |c.order|
      invariant 0 <= n <= |c.order|
      invariant r == PlaceUpTo(c, n, dots)
    {
      if r.Ok? {
        var key := c.order[n];
        r := Place(r.value, Tokenise(key, dots), Coerce(c.last[key]));
      }
      n := n + 1;
    }
  }

  /** toObj: collapse the entries, then store every key's coerced value along
      its segments. `dots` is the truthiness of options.dotsForObjectNotation. */
  method ToObj(source: seq<Entry>, dots: bool) returns (r: Result<Node, DecodeError>)
    ensures r == Decode(source, dots)
  {
    var order, last := CollapseEntries(source);
    CollapseStored(source, |source|);
    var output := PlaceAll(Collapsed(order, last), dots);
    match output
    case Err(e) => r := Err(e);
    case Ok(m) => r := Ok(Container(false, m));
  }
}
