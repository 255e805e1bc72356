/** What toObj promises: which value survives for a repeated key, how keys are
    cut into segments, what each leaf string becomes, when a path cannot be
    stored, and which containers the walk creates or reuses. */
module DecoderFacts {
  import opened FormModel
  import opened JsText
  import opened Decoder

  // ---------------------------------------------------------------------------
  // Collapse (src/index.ts:61-68)

  /** The keys of a list of entries, in order. */
  function Keys(entries: seq<Entry>): (ks: seq<string>)
    ensures |ks| == |entries|
    ensures forall i :: 0 <= i < |entries| ==> ks[i] == entries[i].0
  {
    seq(|entries|, i requires 0 <= i < |entries| => entries[i].0)
  }

  predicate Distinct(s: seq<string>)
  {
    forall i, j :: 0 <= i < j < |s| ==> s[i] != s[j]
  }

  /** A reference for the key order of the accumulator: the keys with every
      repetition after the first occurrence removed. */
  function Dedup(s: seq<string>): seq<string>
  {
    if s == [] then []
    else
      var init := s[..|s| - 1];
      if s[|s| - 1] in init then Dedup(init) else Dedup(init) + [s[|s| - 1]]
  }

  /** After n entries the accumulator holds each key seen so far exactly once,
      and a value for each. */
  lemma {:induction false} CollapseShape(entries: seq<Entry>, n: nat)
    requires n <= |entries|
    ensures Distinct(CollapseUpTo(entries, n).order)
    ensures forall k :: k in CollapseUpTo(entries, n).order <==> k in CollapseUpTo(entries, n).last
    ensures forall k :: k in CollapseUpTo(entries, n).last <==> k in Keys(entries)[..n]
  {
    if n > 0 {
      CollapseShape(entries, n - 1);
      var key := entries[n - 1].0;
      assert Keys(entries)[..n] == Keys(entries)[..n - 1] + [key];
    }
  }

  /** The key order is the order of first occurrence. */
  lemma {:induction false} CollapseOrder(entries: seq<Entry>, n: nat)
    requires n <= |entries|
    ensures CollapseUpTo(entries, n).order == Dedup(Keys(entries)[..n])
  {
    if n > 0 {
      CollapseOrder(entries, n - 1);
      CollapseShape(entries, n - 1);
      var ks := Keys(entries)[..n];
      assert ks[..n - 1] == Keys(entries)[..n - 1];
      assert ks[n - 1] == entries[n - 1].0;
    }
  }

  /** The value kept for a key is the one of its last occurrence. */
  lemma {:induction false} LastWriteWins(entries: seq<Entry>, n: nat, j: nat)
    requires j < n <= |entries|
    requires forall i :: j < i < n ==> entries[i].0 != entries[j].0
    ensures entries[j].0 in CollapseUpTo(entries, n).last
    ensures CollapseUpTo(entries, n).last[entries[j].0] == entries[j].1
  {
    if n > j + 1 {
      LastWriteWins(entries, n - 1, j);
    }
  }

  /** Without repeated keys nothing is collapsed: the accumulator lists the keys
      in entry order. */
  lemma {:induction false} DistinctKeysKeepOrder(entries: seq<Entry>, n: nat)
    requires n <= |entries|
    requires Distinct(Keys(entries))
    ensures CollapseUpTo(entries, n).order == Keys(entries)[..n]
  {
    if n > 0 {
      DistinctKeysKeepOrder(entries, n - 1);
      CollapseShape(entries, n - 1);
      NotSeenBefore(entries, n);
      assert Keys(entries)[..n] == Keys(entries)[..n - 1] + [entries[n - 1].0];
    }
  }

  lemma NotSeenBefore(entries: seq<Entry>, n: nat)
    requires 0 < n <= |entries| && Distinct(Keys(entries))
    ensures entries[n - 1].0 !in Keys(entries)[..n - 1]
  {
    var seen := Keys(entries)[..n - 1];
    forall i | 0 <= i < n - 1 ensures seen[i] != entries[n - 1].0 {
      assert Keys(entries)[i] != Keys(entries)[n - 1];
    }
  }

  /** Entry j is the last one with its key. */
  predicate LastOccurrence(entries: seq<Entry>, j: nat)
    requires j < |entries|
  {
    forall i :: j < i < |entries| ==> entries[i].0 != entries[j].0
  }

  /** The loop of CollapseEntries ends in a state where every key is listed
      once and holds the last value written to it. */
  lemma CollapseEntriesFacts(entries: seq<Entry>, order: seq<string>, last: map<string, EntryVal>)
    requires Collapsed(order, last) == Collapse(entries)
    ensures Distinct(order) && order == Dedup(Keys(entries))
    ensures forall j :: 0 <= j < |entries| && LastOccurrence(entries, j) ==>
                          entries[j].0 in last && last[entries[j].0] == entries[j].1
  {
    CollapseShape(entries, |entries|);
    CollapseOrder(entries, |entries|);
    assert Keys(entries)[..|entries|] == Keys(entries);
    forall j | 0 <= j < |entries| && LastOccurrence(entries, j)
      ensures entries[j].0 in last && last[entries[j].0] == entries[j].1
    {
      LastWriteWins(entries, |entries|, j);
    }
  }

  // ---------------------------------------------------------------------------
  // Tokenising (src/index.ts:71)

  /** A key with no separator of the chosen notation is one segment; in bracket
      notation it must also be non-empty, or it gives none. */
  lemma SimpleKeyTokens(key: string, dots: bool)
    requires if dots then FreeOf(key, Dot) else key != "" && FreeOf(key, Brackets)
    ensures Tokenise(key, dots) == [key]
  {
    if dots {
      SplitOnFree(key, Dot);
    } else {
      SplitOnFree(key, Brackets);
      assert NonEmpty([key]) == [key] + NonEmpty([]);
    }
  }

  /** `a..b` in dot notation keeps the empty middle segment. */
  lemma DotsKeepEmptyTokens()
    ensures Tokenise("a..b", true) == ["a", "", "b"]
  {
    assert SplitOn("b", Dot) == ["b"] by { SplitOnFree("b", Dot); }
    assert ".b"[1..] == "b";
    assert SplitOn(".b", Dot) == ["", "b"];
    assert "..b"[1..] == ".b";
    assert SplitOn("..b", Dot) == ["", "", "b"];
    assert "a..b"[1..] == "..b";
    assert "a..b"[0] !in Dot;
    assert [("a..b"[0])] + "" == "a";
    assert SplitOn("a..b", Dot) == ["a", "", "b"];
  }

  /** In bracket notation a trailing `[]` is ignored. */
  lemma TrailingBracketsIgnored(key: string)
    ensures Tokenise(key + "[]", false) == Tokenise(key, false)
  {
    EmptyBracketsVanish(key);
  }

  /** In bracket notation the empty segment of `a[][b]` vanishes. */
  lemma BracketsDropEmptyTokens()
    ensures Tokenise("a[][b]", false) == ["a", "b"]
  {
    var segs := ["a", "", "b"];
    assert forall i :: 0 <= i < |segs| ==> FreeOf(segs[i], Brackets) by {
      assert FreeOf("a", Brackets) && FreeOf("", Brackets) && FreeOf("b", Brackets);
    }
    SplitBracketPath(segs);
    ExampleBracketPath();
    ExampleNonEmpty();
  }

  lemma ExampleBracketPath()
    ensures BracketPath(["a", "", "b"]) == "a[][b]"
  {
    assert ["a", "", "b"][..2] == ["a", ""];
    assert ["a", ""][..1] == ["a"];
  }

  lemma ExampleNonEmpty()
    ensures NonEmpty(["a", "", "b"]) == ["a", "b"]
  {
    assert NonEmpty(["b"]) == ["b"] + NonEmpty([]);
    assert NonEmpty(["", "b"]) == NonEmpty(["b"]);
    assert NonEmpty(["a", "", "b"]) == ["a"] + NonEmpty(["", "b"]);
  }

  // ---------------------------------------------------------------------------
  // Coercion (src/index.ts:76-92)

  /** Each coercion rule, in the order toObj tries them: a file or blob is
      kept, the three words become their values, a numeric string its number
      and a date-shaped string a Date. */
  lemma CoerceRules(id: nat, s: string)
    ensures Coerce(File(id)) == Blob(id)
    ensures Coerce(Text("true")) == Bool(true)
    ensures Coerce(Text("false")) == Bool(false)
    ensures Coerce(Text("null")) == Null
    ensures IsNumeric(s) ==> Coerce(Text(s)) == Num(ParseNumber(s))
    ensures !IsNumeric(s) && MatchesDatePattern(s) ==> Coerce(Text(s)) == Date(s)
  {
    NotNumericAt("true", 1);
    NotNumericAt("false", 1);
    NotNumericAt("null", 1);
  }

  /** A string stays a string exactly when none of the earlier rules apply. */
  lemma StaysString(s: string)
    ensures Coerce(Text(s)) == Str(s)
      <==> s != "true" && s != "false" && s != "null" && !IsNumeric(s) && !MatchesDatePattern(s)
  {
  }

  /** The empty string is numeric and reads as 0, so an encoded null does not
      come back as null. */
  lemma EmptyIsZero()
    ensures Coerce(Text("")) == Num(0)
  {
  }

  /** A number rendered by String() reads back as that number. */
  lemma NumberReadsBack(n: int)
    ensures Coerce(Text(IntToString(n))) == Num(n)
  {
    NumberOfIntToString(n);
    assert !IsNumeric("true") && !IsNumeric("false") && !IsNumeric("null") by {
      assert !IsDigit("true"[0]) && !IsDigit("false"[0]) && !IsDigit("null"[0]);
    }
  }

  /** A date-shaped string always reaches the date rule. */
  lemma DateReadsBack(iso: string)
    requires MatchesDatePattern(iso)
    ensures Coerce(Text(iso)) == Date(iso)
  {
    DateIsNotNumeric(iso);
  }

  // ---------------------------------------------------------------------------
  // The walk (src/index.ts:72-98)

  /** The slot reached after the first i segments of `parts` holds a truthy
      scalar, into which the walk would have to descend. */
  predicate BlocksAt(cur: map<string, Node>, parts: seq<string>, i: nat)
    requires 1 <= i <= |parts|
  {
    var l := Lookup(cur, parts[..i]);
    l.Some? && l.value.Leaf? && Truthy(l.value)
  }

  /** Nothing is in the way inside a container that is still empty. */
  lemma {:induction false} PlaceIntoEmpty(parts: seq<string>, leaf: Value)
    ensures Place(map[], parts, leaf).Ok?
    decreases |parts|
  {
    if |parts| > 1 {
      PlaceIntoEmpty(parts[1..], leaf);
    }
  }

  /** Storing fails exactly when some proper prefix of the path, followed
      through existing containers, ends at a truthy scalar. */
  lemma {:induction false} PlaceFailsIffBlocked(cur: map<string, Node>, parts: seq<string>, leaf: Value)
    ensures Place(cur, parts, leaf).Err? <==> exists i :: 1 <= i < |parts| && BlocksAt(cur, parts, i)
    decreases |parts|
  {
    if |parts| > 1 {
      var part, rest := parts[0], parts[1..];
      assert parts[..1] == [part];
      assert BlocksAt(cur, parts, 1) <==> part in cur && cur[part].Leaf? && Truthy(cur[part]);
      forall i | 2 <= i <= |parts|
        ensures Lookup(cur, parts[..i])
             == if part in cur && cur[part].Container? then Lookup(cur[part].kids, rest[..i - 1]) else None
      {
        assert parts[..i][0] == part;
        assert parts[..i][1..] == rest[..i - 1];
      }
      if part in cur && Truthy(cur[part]) && cur[part].Container? {
        var kids := cur[part].kids;
        PlaceFailsIffBlocked(kids, rest, leaf);
        if Place(cur, parts, leaf).Err? {
          var i' :| 1 <= i' < |rest| && BlocksAt(kids, rest, i');
          assert BlocksAt(cur, parts, i' + 1);
        }
        if i :| 1 <= i < |parts| && BlocksAt(cur, parts, i) {
          assert i != 1;
          assert BlocksAt(kids, rest, i - 1);
        }
      } else if !(part in cur && Truthy(cur[part])) {
        PlaceIntoEmpty(rest, leaf);
        forall i | 1 <= i < |parts| ensures !BlocksAt(cur, parts, i) {
        }
      }
    }
  }

  /** A path that does not fail creates a container in its first slot: a new
      one, an array exactly when `Number` of the next segment is not NaN, when the slot was
      missing or falsy; otherwise the container already there, of the same
      kind and with its other entries unchanged. */
  lemma PlaceMakesContainer(cur: map<string, Node>, parts: seq<string>, leaf: Value)
    requires |parts| >= 2 && Place(cur, parts, leaf).Ok?
    ensures parts[0] in Place(cur, parts, leaf).value
    ensures Place(cur, parts, leaf).value[parts[0]].Container?
    ensures !(parts[0] in cur && Truthy(cur[parts[0]])) ==>
      Place(cur, parts, leaf).value[parts[0]].isArray == IsNumberText(parts[1])
    ensures parts[0] in cur && Truthy(cur[parts[0]]) ==>
      && cur[parts[0]].Container?
      && Place(cur, parts, leaf).value[parts[0]].isArray == cur[parts[0]].isArray
      && cur[parts[0]].kids.Keys <= Place(cur, parts, leaf).value[parts[0]].kids.Keys
      && forall k :: k in cur[parts[0]].kids && k != parts[1] ==>
           Place(cur, parts, leaf).value[parts[0]].kids[k] == cur[parts[0]].kids[k]
  {
    var part := parts[0];
    if part in cur && Truthy(cur[part]) && cur[part].Container? {
      PlaceFrame(cur[part].kids, parts[1..], leaf);
    }
  }

  /** The last segment always takes the leaf, whatever the slot held. */
  lemma LastSegmentOverwrites(cur: map<string, Node>, part: string, leaf: Value)
    ensures Place(cur, [part], leaf) == Ok(cur[part := Leaf(leaf)])
  {
  }

  // ---------------------------------------------------------------------------
  // The whole decoder

  /** No entries decode to an empty object. */
  lemma DecodeNothing(dots: bool)
    ensures Decode([], dots) == Ok(Container(false, map[]))
  {
  }

  /** Without repeated keys the accumulator holds every entry as it is. */
  lemma FlatCollapse(entries: seq<Entry>)
    requires Distinct(Keys(entries))
    ensures Stored(Collapse(entries))
    ensures Collapse(entries).order == Keys(entries)
    ensures forall i :: 0 <= i < |entries| ==>
      entries[i].0 in Collapse(entries).last && Collapse(entries).last[entries[i].0] == entries[i].1
  {
    CollapseStored(entries, |entries|);
    DistinctKeysKeepOrder(entries, |entries|);
    assert Keys(entries)[..|entries|] == Keys(entries);
    forall i | 0 <= i < |entries|
      ensures entries[i].0 in Collapse(entries).last && Collapse(entries).last[entries[i].0] == entries[i].1
    {
      LastWriteWins(entries, |entries|, i);
    }
  }

  /** The first n entries of a flat form, each stored as a leaf under its
      own key, and nothing else. */
  predicate FlatHolds(m: map<string, Node>, entries: seq<Entry>, n: nat)
    requires n <= |entries|
  {
    && m.Keys == (set i | 0 <= i < n :: entries[i].0)
    && forall i :: 0 <= i < n ==> m[entries[i].0] == Leaf(Coerce(entries[i].1))
  }

  lemma FlatStep(m: map<string, Node>, entries: seq<Entry>, n: nat)
    requires 0 < n <= |entries| && FlatHolds(m, entries, n - 1)
    requires forall i :: 0 <= i < n - 1 ==> entries[i].0 != entries[n - 1].0
    ensures FlatHolds(m[entries[n - 1].0 := Leaf(Coerce(entries[n - 1].1))], entries, n)
  {
    assert (set i | 0 <= i < n :: entries[i].0) == (set i | 0 <= i < n - 1 :: entries[i].0) + {entries[n - 1].0};
  }

  /** The output after the first n keys of a flat form, keys that are single
      segments: each key holds its own coerced value. */
  lemma {:induction false} FlatPlaceUpTo(c: Collapsed, entries: seq<Entry>, dots: bool, n: nat)
    requires n <= |entries|
    requires Stored(c) && c.order == Keys(entries) && Distinct(c.order)
    requires forall i :: 0 <= i < |entries| ==> entries[i].0 in c.last && c.last[entries[i].0] == entries[i].1
    requires forall i :: 0 <= i < |entries| ==> Tokenise(entries[i].0, dots) == [entries[i].0]
    ensures PlaceUpTo(c, n, dots).Ok? && FlatHolds(PlaceUpTo(c, n, dots).value, entries, n)
  {
    if n > 0 {
      FlatPlaceUpTo(c, entries, dots, n - 1);
      var key := entries[n - 1].0;
      assert c.order[n - 1] == key;
      forall i | 0 <= i < n - 1 ensures entries[i].0 != key {
        assert c.order[i] != c.order[n - 1];
      }
      FlatStep(PlaceUpTo(c, n - 1, dots).value, entries, n);
    }
  }

  /** A flat form, each key one segment and no key repeated, decodes to an
      object holding each value under its key. */
  lemma FlatDecode(entries: seq<Entry>, dots: bool)
    requires Distinct(Keys(entries))
    requires forall i :: 0 <= i < |entries| ==> Tokenise(entries[i].0, dots) == [entries[i].0]
    ensures Decode(entries, dots).Ok?
    ensures Decode(entries, dots).value.kids.Keys == set i | 0 <= i < |entries| :: entries[i].0
    ensures forall i :: 0 <= i < |entries| ==> Decode(entries, dots).value.kids[entries[i].0] == Leaf(Coerce(entries[i].1))
  {
    FlatCollapse(entries);
    FlatPlaceUpTo(Collapse(entries), entries, dots, |entries|);
    assert FlatHolds(Decode(entries, dots).value.kids, entries, |entries|);
  }
}
