/** The string work both directions rely on, written out character by
    character: decimal rendering and parsing, the numeric test the decoder
    applies, its date pattern, String.prototype.split as used by the
    tokeniser, the bracket and dot path builders of the encoder, and the
    trailing-index stripping applied to file keys (src/index.ts:71, 84-85,
    131-133, 140, 145-149). */
module JsText {

  predicate IsDigit(c: char) { '0' <= c <= '9' }

  predicate AllDigits(s: string)
  {
    forall i :: 0 <= i < |s| ==> IsDigit(s[i])
  }

  function DigitChar(d: nat): (c: char)
    requires d < 10
    ensures IsDigit(c)
  {
    ['0', '1', '2', '3', '4', '5', '6', '7', '8', '9'][d]
  }

  function DigitValue(c: char): (d: nat)
    requires IsDigit(c)
    ensures d < 10 && DigitChar(d) == c
  {
    (c as int - '0' as int) as nat
  }

  /** The decimal form of a natural number, as a template literal renders it:
      no sign, no leading zeros. */
  function Decimal(n: nat): (s: string)
    ensures |s| > 0 && AllDigits(s)
    ensures s[0] == '0' ==> n == 0
  {
    if n < 10 then [DigitChar(n)] else Decimal(n / 10) + [DigitChar(n % 10)]
  }

  /** The value of a string of decimal digits, leading zeros allowed. */
  function ParseDigits(s: string): nat
    requires AllDigits(s)
  {
    if s == [] then 0 else 10 * ParseDigits(s[..|s| - 1]) + DigitValue(s[|s| - 1])
  }

  lemma {:induction false} ParseDecimal(n: nat)
    ensures ParseDigits(Decimal(n)) == n
  {
    if n >= 10 {
      var s := Decimal(n);
      assert s[..|s| - 1] == Decimal(n / 10);
      ParseDecimal(n / 10);
    }
  }

  /** Decimal numbers are told apart by their rendering. */
  lemma DecimalInjective(m: nat, n: nat)
    requires Decimal(m) == Decimal(n)
    ensures m == n
  {
    ParseDecimal(m);
    ParseDecimal(n);
  }

  /** String(n) for an integer n. */
  function IntToString(n: int): (s: string)
    ensures |s| > 0
  {
    if n < 0 then "-" + Decimal(-n) else Decimal(n)
  }

  /** The strings for which `Number(s)` is not NaN, restricted to integer
      literals: the empty string (Number("") is 0), or an optional sign
      followed by one or more ASCII digits. */
  predicate IsNumeric(s: string)
  {
    || s == ""
    || (|s| > 1 && (s[0] == '+' || s[0] == '-') && AllDigits(s[1..]))
    || AllDigits(s)
  }

  /** `Number(s)` on a numeric string; the empty string gives 0. */
  function ParseNumber(s: string): int
    requires IsNumeric(s)
  {
    if s == "" then 0
    else if s[0] == '-' then -(ParseDigits(s[1..]) as int)
    else if s[0] == '+' then ParseDigits(s[1..])
    else ParseDigits(s)
  }

  /** Number(String(n)) == n: the decoder reads back every integer the encoder
      writes. */
  lemma NumberOfIntToString(n: int)
    ensures IsNumeric(IntToString(n))
    ensures ParseNumber(IntToString(n)) == n
  {
    ParseDecimal(if n < 0 then -n else n);
    if n < 0 {
      assert IntToString(n)[1..] == Decimal(-n);
    }
  }

  // ---------------------------------------------------------------------------
  // The full `!isNaN(Number(s))` test, which the decoder uses to choose
  // between an array and an object (src/index.ts:95)

  /** The white space and line terminators `Number(...)` ignores around a
      literal. */
  predicate IsJsSpace(c: char)
  {
    || c == '\t' || c == '\n' || c == '\U{000B}' || c == '\U{000C}' || c == '\r' || c == ' '
    || c == '\U{00A0}' || c == '\U{1680}' || ('\U{2000}' <= c <= '\U{200A}')
    || c == '\U{2028}' || c == '\U{2029}' || c == '\U{202F}' || c == '\U{205F}'
    || c == '\U{3000}' || c == '\U{FEFF}'
  }

  predicate IsSign(c: char)
  {
    c == '+' || c == '-'
  }

  predicate IsExponentMark(c: char)
  {
    c == 'e' || c == 'E'
  }

  /** A digit of base 2, 8 or 16. */
  predicate IsBaseDigit(c: char, base: nat)
  {
    if base == 16 then IsDigit(c) || 'a' <= c <= 'f' || 'A' <= c <= 'F'
    else '0' <= c < (if base == 8 then '8' else '2')
  }

  /** Where a left-to-right reading of a string is in the StringNumericLiteral
      grammar of ECMAScript, the strings `Number(...)` does not turn into NaN:
      white space, then nothing, or `0x`/`0o`/`0b` with digits of that base,
      or an optional sign followed by `Infinity` or by a decimal literal
      (digits with an optional `.` and fraction, at least one digit in all,
      and an optional exponent), then white space. */
  datatype NumState =
    | Lead                 // white space so far
    | Signed               // after the sign
    | Zero                 // a leading 0, which may start a base prefix
    | IntDigits            // integer digits
    | DotAfterDigits       // `.` after integer digits
    | DotAlone             // `.` with no digit yet
    | FracDigits           // fraction digits
    | ExpMark              // after `e` or `E`
    | ExpSign              // after the exponent's sign
    | ExpDigits            // exponent digits
    | Prefix(base: nat)    // after `0x`, `0o` or `0b`
    | BaseDigits(base: nat)
    | Inf(read: nat)       // the first `read` letters of `Infinity`
    | Trail                // white space after a complete literal
    | Dead                 // no continuation is a number

  /** The reading after a decimal digit, `.`, exponent mark or space that
      follows integer digits. */
  function AfterDigits(c: char): NumState
  {
    if IsDigit(c) then IntDigits
    else if c == '.' then DotAfterDigits
    else if IsExponentMark(c) then ExpMark
    else if IsJsSpace(c) then Trail
    else Dead
  }

  function NumStep(st: NumState, c: char): NumState
  {
    match st
    case Lead =>
      if IsJsSpace(c) then Lead
      else if IsSign(c) then Signed
      else if c == '0' then Zero
      else if IsDigit(c) then IntDigits
      else if c == '.' then DotAlone
      else if c == 'I' then Inf(1)
      else Dead
    case Signed =>
      if IsDigit(c) then IntDigits
      else if c == '.' then DotAlone
      else if c == 'I' then Inf(1)
      else Dead
    case Zero =>
      if c == 'x' || c == 'X' then Prefix(16)
      else if c == 'o' || c == 'O' then Prefix(8)
      else if c == 'b' || c == 'B' then Prefix(2)
      else AfterDigits(c)
    case IntDigits => AfterDigits(c)
    case DotAfterDigits =>
      if IsDigit(c) then FracDigits
      else if IsExponentMark(c) then ExpMark
      else if IsJsSpace(c) then Trail
      else Dead
    case DotAlone => if IsDigit(c) then FracDigits else Dead
    case FracDigits =>
      if IsDigit(c) then FracDigits
      else if IsExponentMark(c) then ExpMark
      else if IsJsSpace(c) then Trail
      else Dead
    case ExpMark =>
      if IsSign(c) then ExpSign else if IsDigit(c) then ExpDigits else Dead
    case ExpSign => if IsDigit(c) then ExpDigits else Dead
    case ExpDigits =>
      if IsDigit(c) then ExpDigits else if IsJsSpace(c) then Trail else Dead
    case Prefix(b) => if IsBaseDigit(c, b) then BaseDigits(b) else Dead
    case BaseDigits(b) =>
      if IsBaseDigit(c, b) then BaseDigits(b) else if IsJsSpace(c) then Trail else Dead
    case Inf(n) =>
      if n < 8 && c == "Infinity"[n] then Inf(n + 1)
      else if n == 8 && IsJsSpace(c) then Trail
      else Dead
    case Trail => if IsJsSpace(c) then Trail else Dead
    case Dead => Dead
  }

  /** The readings at which the string read so far is a number. */
  predicate NumAccepts(st: NumState)
  {
    || st.Lead? || st.Zero? || st.IntDigits? || st.DotAfterDigits? || st.FracDigits?
    || st.ExpDigits? || st.BaseDigits? || st == Inf(8) || st.Trail?
  }

  predicate NumScan(s: string, st: NumState)
  {
    if s == [] then NumAccepts(st) else NumScan(s[1..], NumStep(st, s[0]))
  }

  /** `!isNaN(Number(s))`. */
  predicate IsNumberText(s: string)
  {
    NumScan(s, Lead)
  }

  lemma {:induction false} DigitsScan(s: string)
    requires AllDigits(s)
    ensures NumScan(s, IntDigits)
  {
    if s != [] {
      DigitsScan(s[1..]);
    }
  }

  /** The integer strings `IsNumeric` accepts are numbers for JavaScript too. */
  lemma NumericIsNumberText(s: string)
    requires IsNumeric(s)
    ensures IsNumberText(s)
  {
    if s != [] {
      if IsSign(s[0]) {
        assert NumStep(Lead, s[0]) == Signed && NumStep(Signed, s[1]) == IntDigits;
        DigitsScan(s[2..]);
        assert s[1..][1..] == s[2..];
      } else if s[0] == '0' && |s| > 1 {
        assert NumStep(Zero, s[1]) == IntDigits;
        DigitsScan(s[2..]);
        assert s[1..][1..] == s[2..];
      } else {
        DigitsScan(s[1..]);
      }
    }
  }

  /** A character other than a digit after the first position makes a
      string non-numeric. */
  lemma NotNumericAt(s: string, i: nat)
    requires 0 < i < |s| && !IsDigit(s[i])
    ensures !IsNumeric(s)
  {
    assert s[1..][i - 1] == s[i];
  }

  /** Strings `Number(...)` reads as numbers that the integer test rejects:
      a decimal fraction, white space alone, an exponent, hex and a signed
      `Infinity`. */
  lemma NumberTextBeyondIntegers()
    ensures IsNumberText("1.5") && !IsNumeric("1.5")
    ensures IsNumberText(" ") && !IsNumeric(" ")
    ensures IsNumberText("1e3") && !IsNumeric("1e3")
    ensures IsNumberText("0x1f") && !IsNumeric("0x1f")
    ensures IsNumberText("-Infinity") && !IsNumeric("-Infinity")
  {
    NotNumericAt("1.5", 1);
    NotNumericAt("1e3", 1);
    NotNumericAt("0x1f", 1);
    NotNumericAt("-Infinity", 1);
    assert !IsDigit(" "[0]);
    ReadFraction();
    ReadSpace();
    ReadExponent();
    ReadHex();
    ReadInfinity();
  }

  lemma ReadFraction()
    ensures IsNumberText("1.5")
  {
    assert NumScan("5", FracDigits);
    assert NumScan(".5", IntDigits);
  }

  lemma ReadSpace()
    ensures IsNumberText(" ")
  {
  }

  lemma ReadExponent()
    ensures IsNumberText("1e3")
  {
    assert NumScan("3", ExpMark);
    assert NumScan("e3", IntDigits);
  }

  lemma ReadHex()
    ensures IsNumberText("0x1f")
  {
    assert NumScan("f", BaseDigits(16));
    assert NumScan("1f", Prefix(16));
    assert NumScan("x1f", Zero);
  }

  lemma ReadInfinity()
    ensures IsNumberText("-Infinity")
  {
    ReadInfinityWord();
    assert NumScan("Infinity", Signed);
  }

  lemma ReadInfinityWord()
    ensures NumScan("nfinity", Inf(1))
  {
    ReadInfinityTail();
    assert NumScan("inity", Inf(3));
    assert NumScan("finity", Inf(2));
  }

  lemma ReadInfinityTail()
    ensures NumScan("nity", Inf(4))
  {
    assert NumScan("y", Inf(7));
    assert NumScan("ty", Inf(6));
    assert NumScan("ity", Inf(5));
  }

  /** Strings that are not numbers for JavaScript: a word, a sign alone, a
      lone `.`, a signed hex literal, and a number followed by a letter. */
  lemma NotNumberTexts()
    ensures !IsNumberText("abc") && !IsNumberText("-") && !IsNumberText(".")
    ensures !IsNumberText("-0x1") && !IsNumberText("1a")
  {
    NotSignedHex();
    assert !NumScan("bc", Dead);
    assert !NumScan("a", IntDigits);
  }

  lemma NotSignedHex()
    ensures !IsNumberText("-0x1")
  {
    assert !NumScan("1", Dead);
    assert !NumScan("x1", IntDigits);
  }

  /** The characters JavaScript's `.` does not match. */
  predicate IsLineTerminator(c: char)
  {
    c == '\n' || c == '\r' || c == '\U{2028}' || c == '\U{2029}'
  }

  /** `/^\d{4}-\d{2}-\d{2}T\d{2}:\d{2}:\d{2}.\d{3}Z$/`. The `.` before the
      milliseconds is not escaped, so position 19 is any character other than a
      line terminator. */
  predicate MatchesDatePattern(s: string)
  {
    && |s| == 24
    && AllDigits(s[0..4]) && s[4] == '-'
    && AllDigits(s[5..7]) && s[7] == '-'
    && AllDigits(s[8..10]) && s[10] == 'T'
    && AllDigits(s[11..13]) && s[13] == ':'
    && AllDigits(s[14..16]) && s[16] == ':'
    && AllDigits(s[17..19]) && !IsLineTerminator(s[19])
    && AllDigits(s[20..23]) && s[23] == 'Z'
  }

  /** A date-shaped string is never numeric, so the date test of the decoder
      is reachable for it. */
  lemma DateIsNotNumeric(s: string)
    requires MatchesDatePattern(s)
    ensures !IsNumeric(s)
  {
    assert !IsDigit(s[4]);
    assert s[1..][3] == s[4];
  }

  // ---------------------------------------------------------------------------
  // key.split(...)

  /** `s.split(c)` for a separator set of single characters: k separators give
      k + 1 tokens, empty tokens included. */
  function SplitOn(s: string, seps: set<char>): (r: seq<string>)
    ensures |r| > 0
  {
    if s == [] then [""]
    else
      var rest := SplitOn(s[1..], seps);
      if s[0] in seps then [""] + rest else [[s[0]] + rest[0]] + rest[1..]
  }

  /** The number of separator characters in s. */
  function CountSeps(s: string, seps: set<char>): nat
  {
    if s == [] then 0 else (if s[0] in seps then 1 else 0) + CountSeps(s[1..], seps)
  }

  predicate FreeOf(t: string, seps: set<char>)
  {
    forall i :: 0 <= i < |t| ==> t[i] !in seps
  }

  /** The characters of s that are not separators, in order. */
  function Without(s: string, seps: set<char>): string
  {
    if s == [] then "" else (if s[0] in seps then "" else [s[0]]) + Without(s[1..], seps)
  }

  function Concat(ts: seq<string>): string
  {
    if ts == [] then "" else ts[0] + Concat(ts[1..])
  }

  /** `.filter(Boolean)` on a list of strings. */
  function NonEmpty(ts: seq<string>): (r: seq<string>)
    ensures forall i :: 0 <= i < |r| ==> r[i] != ""
    ensures |r| <= |ts|
  {
    if ts == [] then [] else (if ts[0] == "" then [] else [ts[0]]) + NonEmpty(ts[1..])
  }

  /** Split yields one more token than there are separators; no token holds a
      separator, and the tokens put back together are s without them. */
  lemma {:induction false} SplitOnShape(s: string, seps: set<char>)
    ensures |SplitOn(s, seps)| == CountSeps(s, seps) + 1
    ensures forall i :: 0 <= i < |SplitOn(s, seps)| ==> FreeOf(SplitOn(s, seps)[i], seps)
    ensures Concat(SplitOn(s, seps)) == Without(s, seps)
  {
    if s != [] {
      SplitOnShape(s[1..], seps);
      var rest := SplitOn(s[1..], seps);
      if s[0] in seps {
        assert SplitOn(s, seps) == [""] + rest;
        assert Concat([""] + rest) == Concat(rest);
      } else {
        var r := SplitOn(s, seps);
        assert r == [[s[0]] + rest[0]] + rest[1..];
        assert FreeOf(r[0], seps) by {
          assert FreeOf(rest[0], seps);
        }
        assert forall i :: 1 <= i < |r| ==> r[i] == rest[i];
        assert rest == [rest[0]] + rest[1..];
        calc {
          Concat(r);
          [s[0]] + rest[0] + Concat(rest[1..]);
          [s[0]] + Concat(rest);
        }
      }
    }
  }

  /** A token with no separator splits to itself. */
  lemma {:induction false} SplitOnFree(t: string, seps: set<char>)
    requires FreeOf(t, seps)
    ensures SplitOn(t, seps) == [t]
  {
    if t != [] {
      assert FreeOf(t[1..], seps) by {
        forall i | 0 <= i < |t[1..]| ensures t[1..][i] !in seps {
          assert t[1..][i] == t[i + 1];
        }
      }
      SplitOnFree(t[1..], seps);
      assert [t[0]] + t[1..] == t;
    }
  }

  /** Splitting at a separator splits the two sides independently. */
  lemma {:induction false} SplitOnAtSep(a: string, c: char, b: string, seps: set<char>)
    requires c in seps
    ensures SplitOn(a + [c] + b, seps) == SplitOn(a, seps) + SplitOn(b, seps)
  {
    if a == [] {
      assert a + [c] + b == [c] + b;
      assert ([c] + b)[1..] == b;
    } else {
      var s := a + [c] + b;
      assert s[0] == a[0];
      assert s[1..] == a[1..] + [c] + b;
      SplitOnAtSep(a[1..], c, b, seps);
    }
  }

  lemma {:induction false} NonEmptyAppend(a: seq<string>, b: seq<string>)
    ensures NonEmpty(a + b) == NonEmpty(a) + NonEmpty(b)
  {
    if a != [] {
      assert (a + b)[0] == a[0];
      assert (a + b)[1..] == a[1..] + b;
      NonEmptyAppend(a[1..], b);
      var head := if a[0] == "" then [] else [a[0]];
      calc {
        NonEmpty(a + b);
        head + NonEmpty(a[1..] + b);
        head + (NonEmpty(a[1..]) + NonEmpty(b));
        (head + NonEmpty(a[1..])) + NonEmpty(b);
        NonEmpty(a) + NonEmpty(b);
      }
    } else {
      assert a + b == b;
    }
  }

  const Brackets: set<char> := {'[', ']'}

  const Dot: set<char> := {'.'}

  /** `key.split(/[\[\]]/).filter(Boolean)`: the bracket-notation tokeniser. */
  function SplitBrackets(key: string): (r: seq<string>)
  {
    NonEmpty(SplitOn(key, Brackets))
  }

  /** `key.split('.')`: the dot-notation tokeniser, which keeps empty tokens. */
  function SplitDots(key: string): (r: seq<string>)
    ensures |r| == CountSeps(key, Dot) + 1
    ensures Concat(r) == Without(key, Dot)
  {
    SplitOnShape(key, Dot);
    SplitOn(key, Dot)
  }

  lemma {:induction false} ConcatNonEmpty(ts: seq<string>)
    ensures Concat(NonEmpty(ts)) == Concat(ts)
  {
    if ts != [] {
      ConcatNonEmpty(ts[1..]);
      assert ts[0] == "" ==> NonEmpty(ts) == NonEmpty(ts[1..]);
    }
  }

  /** Bracket tokens are non-empty and bracket-free, and together they spell
      the key with its brackets removed. */
  lemma SplitBracketsShape(key: string)
    ensures forall i :: 0 <= i < |SplitBrackets(key)| ==> SplitBrackets(key)[i] != ""
    ensures Concat(SplitBrackets(key)) == Without(key, Brackets)
  {
    SplitOnShape(key, Brackets);
    ConcatNonEmpty(SplitOn(key, Brackets));
  }

  /** Appending empty brackets does not change the tokens: `tags[]` reads as
      the one segment `tags`. */
  lemma EmptyBracketsVanish(key: string)
    ensures SplitBrackets(key + "[]") == SplitBrackets(key)
  {
    assert key + "[]" == key + ['['] + "]";
    SplitOnAtSep(key, '[', "]", Brackets);
    assert "]" == [] + [']'] + [];
    SplitOnAtSep([], ']', [], Brackets);
    assert SplitOn("]", Brackets) == ["", ""];
    NonEmptyAppend(SplitOn(key, Brackets), ["", ""]);
    assert NonEmpty(["", ""]) == [];
  }

  // ---------------------------------------------------------------------------
  // Path builders of the encoder

  /** `seg0[seg1][seg2]...`, built the way the encoder extends a path one
      bracketed segment at a time. */
  function BracketPath(segs: seq<string>): string
  {
    if segs == [] then ""
    else if |segs| == 1 then segs[0]
    else BracketPath(segs[..|segs| - 1]) + "[" + segs[|segs| - 1] + "]"
  }

  /** `seg0.seg1.seg2...`. */
  function DotPath(segs: seq<string>): string
  {
    if segs == [] then ""
    else if |segs| == 1 then segs[0]
    else DotPath(segs[..|segs| - 1]) + "." + segs[|segs| - 1]
  }

  /** The bracket tokeniser undoes BracketPath up to the empty segments an
      array written with `[]` leaves behind. */
  lemma {:induction false} SplitBracketPath(segs: seq<string>)
    requires forall i :: 0 <= i < |segs| ==> FreeOf(segs[i], Brackets)
    ensures SplitBrackets(BracketPath(segs)) == NonEmpty(segs)
  {
    if segs == [] {
    } else if |segs| == 1 {
      SplitOnFree(segs[0], Brackets);
      assert segs == [segs[0]];
    } else {
      var init, last := segs[..|segs| - 1], segs[|segs| - 1];
      assert segs == init + [last];
      SplitBracketPath(init);
      var p := BracketPath(init);
      assert BracketPath(segs) == p + ['['] + (last + [']'] + []);
      SplitOnAtSep(p, '[', last + [']'] + [], Brackets);
      SplitOnAtSep(last, ']', [], Brackets);
      SplitOnFree(last, Brackets);
      assert last + [']'] + [] == last + [']'];
      NonEmptyAppend(SplitOn(p, Brackets), [last] + [""]);
      NonEmptyAppend([last], [""]);
      NonEmptyAppend(init, [last]);
    }
  }

  /** Dot tokens joined by DotPath give back the key. */
  lemma DotPathOfSplit(key: string)
    ensures DotPath(SplitDots(key)) == key
  {
    DotPathOfSplitOn(key);
  }

  lemma {:induction false} DotPathOfSplitOn(key: string)
    ensures DotPath(SplitOn(key, Dot)) == key
  {
    if key != [] {
      DotPathOfSplitOn(key[1..]);
      var rest := SplitOn(key[1..], Dot);
      if key[0] == '.' {
        assert SplitOn(key, Dot) == [""] + rest;
        DotPrepend([""], rest);
      } else {
        assert SplitOn(key, Dot) == [[key[0]] + rest[0]] + rest[1..];
        ConsFirst([key[0]], rest);
      }
      assert [key[0]] + key[1..] == key;
    }
  }

  /** Splitting the dot path of dot-free segments gives the segments back. */
  lemma {:induction false} SplitDotPath(segs: seq<string>)
    requires |segs| > 0
    requires forall i :: 0 <= i < |segs| ==> FreeOf(segs[i], Dot)
    ensures SplitDots(DotPath(segs)) == segs
  {
    if |segs| == 1 {
      SplitOnFree(segs[0], Dot);
    } else {
      var init, last := segs[..|segs| - 1], segs[|segs| - 1];
      SplitDotPath(init);
      SplitOnAtSep(DotPath(init), '.', last, Dot);
      SplitOnFree(last, Dot);
      assert DotPath(segs) == DotPath(init) + ['.'] + last;
      assert segs == init + [last];
    }
  }

  lemma {:induction false} DotPrepend(a: seq<string>, rest: seq<string>)
    requires |a| == 1 && a[0] == "" && |rest| > 0
    ensures DotPath(a + rest) == "." + DotPath(rest)
    decreases |rest|
  {
    if |rest| == 1 {
      assert a + rest == [""] + [rest[0]];
    } else {
      var init := rest[..|rest| - 1];
      DotPrepend(a, init);
      assert (a + rest)[..|a + rest| - 1] == a + init;
    }
  }

  lemma {:induction false} ConsFirst(c: string, rest: seq<string>)
    requires |rest| > 0
    ensures DotPath([c + rest[0]] + rest[1..]) == c + DotPath(rest)
    decreases |rest|
  {
    var r := [c + rest[0]] + rest[1..];
    if |rest| > 1 {
      var init := rest[..|rest| - 1];
      ConsFirst(c, init);
      assert r[..|r| - 1] == [c + init[0]] + init[1..];
    }
  }

  // ---------------------------------------------------------------------------
  // currentPath.replace(/\[\d*\]$/, '')

  /** The start of the run of digits that ends just before index `end`. */
  function DigitRunStart(s: string, end: nat): (k: nat)
    requires end <= |s|
    ensures k <= end && AllDigits(s[k..end])
    ensures k == 0 || !IsDigit(s[k - 1])
    decreases end
  {
    if end > 0 && IsDigit(s[end - 1]) then
      var k := DigitRunStart(s, end - 1);
      assert s[k..end] == s[k..end - 1] + [s[end - 1]];
      k
    else end
  }

  /** The run found is the only one: it starts right after a non-digit. */
  lemma {:induction false} DigitRunStartIs(s: string, end: nat, k: nat)
    requires k <= end <= |s| && AllDigits(s[k..end])
    requires k == 0 || !IsDigit(s[k - 1])
    ensures DigitRunStart(s, end) == k
    decreases end
  {
    if end > k {
      assert s[k..end][end - 1 - k] == s[end - 1];
      assert s[k..end - 1] == s[k..end][..end - 1 - k];
      DigitRunStartIs(s, end - 1, k);
    }
  }

  /** Removes one trailing `[digits]` group, the only match the anchored
      pattern can have; any other string is returned as it is. */
  function StripIndexSuffix(s: string): (r: string)
    ensures r == s || (|r| + 2 <= |s| && r == s[..|r|] && s[|r|] == '['
                       && AllDigits(s[|r| + 1..|s| - 1]) && s[|s| - 1] == ']')
  {
    if |s| >= 2 && s[|s| - 1] == ']' then
      var k := DigitRunStart(s, |s| - 1);
      if k >= 1 && s[k - 1] == '[' then s[..k - 1] else s
    else s
  }

  /** Whether s ends in a `[digits]` group. */
  predicate HasIndexSuffix(s: string)
  {
    exists k :: 0 <= k < |s| - 1 && s[k] == '[' && AllDigits(s[k + 1..|s| - 1]) && s[|s| - 1] == ']'
  }

  /** A path ending in `[digits]` loses exactly that group. */
  lemma StripsIndexSuffix(p: string, d: string)
    requires AllDigits(d)
    ensures StripIndexSuffix(p + "[" + d + "]") == p
  {
    var s := p + "[" + d + "]";
    assert s[|p| + 1..|s| - 1] == d;
    DigitRunStartIs(s, |s| - 1, |p| + 1);
    assert s[..|p|] == p;
  }

  /** A path is left alone exactly when it has no trailing `[digits]` group. */
  lemma KeepsOtherPaths(s: string)
    ensures StripIndexSuffix(s) == s <==> !HasIndexSuffix(s)
  {
    if StripIndexSuffix(s) != s {
      StrippedHadSuffix(s);
    }
    if HasIndexSuffix(s) {
      SuffixIsStripped(s);
    }
  }

  lemma StrippedHadSuffix(s: string)
    requires StripIndexSuffix(s) != s
    ensures HasIndexSuffix(s)
  {
    var k := DigitRunStart(s, |s| - 1);
    assert 0 <= k - 1 < |s| - 1 && s[k - 1] == '[' && AllDigits(s[k - 1 + 1..|s| - 1]);
  }

  lemma SuffixIsStripped(s: string)
    requires HasIndexSuffix(s)
    ensures StripIndexSuffix(s) != s
  {
    var k :| 0 <= k < |s| - 1 && s[k] == '[' && AllDigits(s[k + 1..|s| - 1]) && s[|s| - 1] == ']';
    var p, d := s[..k], s[k + 1..|s| - 1];
    assert s == p + "[" + d + "]";
    StripsIndexSuffix(p, d);
  }
}
