/**
 * The string operations of Python's `str` that the assistant relies on,
 * restricted to ASCII: digit tests, lower-casing, whitespace stripping and
 * splitting, joining, substring containment (`in`), `int()` parsing,
 * decimal rendering and the code-point order that `sorted` uses.
 */
module Text {
  import opened Errors

  predicate IsDigit(c: char) { '0' <= c <= '9' }

  /** The ASCII characters Python's `str.isspace` accepts. */
  predicate IsSpace(c: char) {
    c == ' ' || 9 <= c as int <= 13 || 28 <= c as int <= 31
  }

  predicate AllDigits(s: string) { forall i :: 0 <= i < |s| ==> IsDigit(s[i]) }

  predicate NoSpace(s: string) { forall i :: 0 <= i < |s| ==> !IsSpace(s[i]) }

  predicate AllSpace(s: string) { forall i :: 0 <= i < |s| ==> IsSpace(s[i]) }

  function LowerChar(c: char): char {
    if 'A' <= c <= 'Z' then (c as int - 'A' as int + 'a' as int) as char else c
  }

  /** `str.lower()` on ASCII text. */
  function Lower(s: string): (r: string)
    ensures |r| == |s|
    ensures forall i :: 0 <= i < |s| ==> r[i] == LowerChar(s[i])
  {
    if s == [] then [] else [LowerChar(s[0])] + Lower(s[1..])
  }

  /** Drops the leading whitespace. */
  function TrimLeft(s: string): (r: string)
    ensures |r| <= |s|
    ensures r == [] || !IsSpace(r[0])
  {
    if s != [] && IsSpace(s[0]) then TrimLeft(s[1..]) else s
  }

  /** What `TrimLeft` drops is whitespace, and what it keeps is a suffix. */
  lemma {:induction false} TrimLeftFacts(s: string)
    ensures TrimLeft(s) == s[|s| - |TrimLeft(s)|..]
    ensures AllSpace(s[..|s| - |TrimLeft(s)|])
    decreases |s|
  {
    if s != [] && IsSpace(s[0]) {
      TrimLeftFacts(s[1..]);
      var k := |s| - |TrimLeft(s)|;
      assert s[1..][k - 1..] == s[k..];
      forall i | 0 <= i < k
        ensures IsSpace(s[..k][i])
      {
        if i > 0 {
          assert s[..k][i] == s[1..][..k - 1][i - 1];
        }
      }
    }
  }

  /** Drops the trailing whitespace. */
  function TrimRight(s: string): (r: string)
    ensures |r| <= |s|
    ensures r == [] || !IsSpace(r[|r| - 1])
  {
    if s != [] && IsSpace(s[|s| - 1]) then TrimRight(s[..|s| - 1]) else s
  }

  /** What `TrimRight` drops is whitespace, and what it keeps is a prefix. */
  lemma {:induction false} TrimRightFacts(s: string)
    ensures TrimRight(s) == s[..|TrimRight(s)|]
    ensures AllSpace(s[|TrimRight(s)|..])
    decreases |s|
  {
    if s != [] && IsSpace(s[|s| - 1]) {
      var u := s[..|s| - 1];
      TrimRightFacts(u);
      var k := |TrimRight(s)|;
      assert u[..k] == s[..k];
      forall i | 0 <= i < |s| - k
        ensures IsSpace(s[k..][i])
      {
        if i < |s| - k - 1 {
          assert s[k..][i] == u[k..][i];
        }
      }
    }
  }

  /** `str.strip()`. */
  function Strip(s: string): string { TrimRight(TrimLeft(s)) }

  /** The longest prefix of `s` that holds no whitespace. */
  function Word(s: string): (w: string)
    ensures |w| <= |s| && w == s[..|w|] && NoSpace(w)
    ensures |w| < |s| ==> IsSpace(s[|w|])
  {
    if s == [] || IsSpace(s[0]) then [] else [s[0]] + Word(s[1..])
  }

  /** `str.split()` with no separator: the maximal runs of non-whitespace, in order. */
  function Split(s: string): (r: seq<string>)
    ensures forall i :: 0 <= i < |r| ==> r[i] != [] && NoSpace(r[i])
    decreases |s|
  {
    var t := TrimLeft(s);
    if t == [] then []
    else
      var w := Word(t);
      [w] + Split(t[|w|..])
  }

  /** `sep.join(parts)`. */
  function Join(sep: string, parts: seq<string>): string {
    if parts == [] then ""
    else if |parts| == 1 then parts[0]
    else parts[0] + sep + Join(sep, parts[1..])
  }

  predicate IsPrefix(p: string, s: string) { |p| <= |s| && s[..|p|] == p }

  /** Python's `needle in hay` on strings. */
  predicate Contains(hay: string, needle: string)
    decreases |hay|
  {
    IsPrefix(needle, hay) || (hay != [] && Contains(hay[1..], needle))
  }

  /** Python's `a <= b` on strings: code-point lexicographic order. */
  predicate StrLe(a: string, b: string) {
    if a == [] then true
    else if b == [] then false
    else if a[0] != b[0] then a[0] < b[0]
    else StrLe(a[1..], b[1..])
  }

  /** `str(n)` for a natural number. */
  function NatToString(n: nat): (s: string)
    ensures s != [] && AllDigits(s)
  {
    if n < 10 then [DigitChar(n)] else NatToString(n / 10) + [DigitChar(n % 10)]
  }

  function DigitChar(d: nat): char
    requires d < 10
  {
    ('0' as int + d) as char
  }

  function DigitValue(c: char): nat
    requires IsDigit(c)
  {
    c as int - '0' as int
  }

  /** The value of a string of decimal digits. */
  function DecimalValue(s: string): nat
    requires AllDigits(s)
  {
    if s == [] then 0 else DecimalValue(s[..|s| - 1]) * 10 + DigitValue(s[|s| - 1])
  }

  /**
   * The digit strings Python's `int()` accepts: digits, with single
   * underscores allowed between two digits.
   */
  predicate DigitGroups(s: string) {
    && s != []
    && IsDigit(s[0]) && IsDigit(s[|s| - 1])
    && (forall i :: 0 <= i < |s| ==> IsDigit(s[i]) || s[i] == '_')
    && (forall i, j :: 0 <= i < |s| && 0 <= j < |s| && j == i + 1 ==> !(s[i] == '_' && s[j] == '_'))
  }

  function DropUnderscores(s: string): (r: string)
    ensures (forall i :: 0 <= i < |s| ==> IsDigit(s[i]) || s[i] == '_') ==> AllDigits(r)
    ensures AllDigits(s) ==> r == s
  {
    if s == [] then []
    else (if s[0] == '_' then [] else [s[0]]) + DropUnderscores(s[1..])
  }

  /** Python's `int(s)` on a string: `None` where it raises ValueError. */
  function ParseInt(s: string): Option<int> {
    ParseSigned(Strip(s))
  }

  /** `int()` after stripping: an optional sign, then digit groups. */
  function ParseSigned(t: string): Option<int> {
    if t != [] && (t[0] == '+' || t[0] == '-') then
      match ParseDigits(t[1..])
      case None => None
      case Some(v) => Some(if t[0] == '-' then -(v as int) else v)
    else
      match ParseDigits(t)
      case None => None
      case Some(v) => Some(v)
  }

  /**
   * The most digits `int()` converts from a decimal string: CPython's
   * default `sys.get_int_max_str_digits()`, in force since 3.11.
   */
  const MaxStrDigits := 4300

  /** How many characters of digit groups are digits: all but the underscores. */
  function DigitCount(body: string): int {
    |body| - multiset(body)['_']
  }

  /**
   * Digit groups read as a decimal number, underscores ignored; more than
   * `MaxStrDigits` digits raise ValueError.
   */
  function ParseDigits(body: string): Option<nat> {
    if DigitGroups(body) && DigitCount(body) <= MaxStrDigits then Some(DecimalValue(DropUnderscores(body)))
    else None
  }

  // ---------------------------------------------------------------------
  // Properties of the string operations
  // ---------------------------------------------------------------------

  /** Splitting finds no token exactly when the text is blank, i.e. strips to "". */
  lemma {:induction false} SplitEmptyIffBlank(s: string)
    ensures Split(s) == [] <==> Strip(s) == []
    ensures Split(s) == [] <==> AllSpace(s)
  {
    var t := TrimLeft(s);
    TrimLeftFacts(s);
    if t == [] {
      assert s[..|s|] == s;
    } else {
      TrimRightFacts(t);
      assert !IsSpace(t[0]);
      assert t[0..] == t;
      assert TrimRight(t) != [];
      assert s[|s| - |t|] == t[0];
    }
  }

  lemma TrimLeftOfNonSpace(s: string)
    requires s != [] && !IsSpace(s[0])
    ensures TrimLeft(s) == s
  {
  }

  lemma {:induction false} TrimLeftSkipsSpace(sp: string, s: string)
    requires AllSpace(sp)
    ensures TrimLeft(sp + s) == TrimLeft(s)
    decreases |sp|
  {
    if sp != [] {
      assert (sp + s)[1..] == sp[1..] + s;
      TrimLeftSkipsSpace(sp[1..], s);
    } else {
      assert sp + s == s;
    }
  }

  /** Splitting only looks at the text after its leading whitespace. */
  lemma SplitOfTrimmed(s: string)
    ensures Split(s) == Split(TrimLeft(s))
  {
    var t := TrimLeft(s);
    if t != [] {
      TrimLeftOfNonSpace(t);
    }
  }

  /** A whitespace run before the text does not change its tokens. */
  lemma SplitSkipsSpace(sp: string, s: string)
    requires AllSpace(sp)
    ensures Split(sp + s) == Split(s)
  {
    SplitOfTrimmed(sp + s);
    TrimLeftSkipsSpace(sp, s);
    SplitOfTrimmed(s);
  }

  lemma {:induction false} WordOfJoined(w: string, rest: string)
    requires NoSpace(w)
    requires rest == [] || IsSpace(rest[0])
    ensures Word(w + rest) == w
    decreases |w|
  {
    if w != [] {
      assert (w + rest)[1..] == w[1..] + rest;
      WordOfJoined(w[1..], rest);
    } else {
      assert w + rest == rest;
    }
  }

  /** A word followed by whitespace (or nothing) is the first token. */
  lemma SplitCons(w: string, rest: string)
    requires w != [] && NoSpace(w)
    requires rest == [] || IsSpace(rest[0])
    ensures Split(w + rest) == [w] + Split(rest)
  {
    var s := w + rest;
    assert s[0] == w[0];
    TrimLeftOfNonSpace(s);
    WordOfJoined(w, rest);
    assert s[|w|..] == rest;
  }

  /**
   * Round trip: tokens that are non-empty and hold no whitespace come back
   * unchanged from splitting their single-space join.
   */
  lemma {:induction false} SplitJoin(ws: seq<string>)
    requires forall i :: 0 <= i < |ws| ==> ws[i] != [] && NoSpace(ws[i])
    ensures Split(Join(" ", ws)) == ws
    decreases |ws|
  {
    if |ws| == 1 {
      SplitJoinSingle(ws[0]);
    } else if |ws| > 1 {
      SplitJoin(ws[1..]);
      SplitJoinStep(ws);
    }
  }

  lemma SplitJoinSingle(w: string)
    requires w != [] && NoSpace(w)
    ensures Split(Join(" ", [w])) == [w]
  {
    SplitCons(w, "");
    assert w + "" == w;
  }

  /** One more token in front of a join whose split is already known. */
  lemma SplitJoinStep(ws: seq<string>)
    requires |ws| > 1 && ws[0] != [] && NoSpace(ws[0])
    requires Split(Join(" ", ws[1..])) == ws[1..]
    ensures Split(Join(" ", ws)) == ws
  {
    JoinCons(ws);
    SplitWordThenSpace(ws[0], Join(" ", ws[1..]));
    assert [ws[0]] + ws[1..] == ws;
  }

  lemma JoinCons(ws: seq<string>)
    requires |ws| > 1
    ensures Join(" ", ws) == ws[0] + (" " + Join(" ", ws[1..]))
  {
  }

  /** A word, a space and more text: the word is the first token and the rest are the text's own. */
  lemma SplitWordThenSpace(w: string, tail: string)
    requires w != [] && NoSpace(w)
    ensures Split(w + (" " + tail)) == [w] + Split(tail)
  {
    SplitCons(w, " " + tail);
    SplitAfterSpace(tail);
  }

  lemma SplitAfterSpace(tail: string)
    ensures Split(" " + tail) == Split(tail)
  {
    assert AllSpace(" ");
    SplitSkipsSpace(" ", tail);
  }

  /** `needle` occurs in `hay` starting at offset `i`. */
  predicate OccursAt(hay: string, needle: string, i: int) {
    0 <= i <= |hay| - |needle| && hay[i..i + |needle|] == needle
  }

  /** Substring containment means an occurrence at some offset. */
  lemma {:induction false} ContainsIffOccurrence(hay: string, needle: string)
    ensures Contains(hay, needle) <==> exists i :: OccursAt(hay, needle, i)
    decreases |hay|
  {
    if hay == [] {
      if Contains(hay, needle) {
        assert OccursAt(hay, needle, 0);
      }
    } else {
      ContainsIffOccurrence(hay[1..], needle);
      if Contains(hay, needle) {
        if IsPrefix(needle, hay) {
          assert OccursAt(hay, needle, 0);
        } else {
          var j :| OccursAt(hay[1..], needle, j);
          SliceOfTail(hay, j + 1, |needle|);
          assert OccursAt(hay, needle, j + 1);
        }
      } else {
        forall i | OccursAt(hay, needle, i)
          ensures false
        {
          if i > 0 {
            OccursInTail(hay, needle, i);
          }
        }
      }
    }
  }

  /** An occurrence past the first character is an occurrence in the tail. */
  lemma OccursInTail(hay: string, needle: string, i: int)
    requires i > 0 && OccursAt(hay, needle, i)
    ensures OccursAt(hay[1..], needle, i - 1)
  {
    SliceOfTail(hay, i, |needle|);
  }

  /** A window of the tail is the window one place further right in the whole. */
  lemma SliceOfTail(hay: string, i: int, len: nat)
    requires 0 < i && i + len <= |hay|
    ensures hay[1..][i - 1..i - 1 + len] == hay[i..i + len]
  {
  }

  /** Reading back the decimal rendering of a number gives the number. */
  lemma {:induction false} DecimalOfNatToString(n: nat)
    ensures DecimalValue(NatToString(n)) == n
    decreases n
  {
    if n >= 10 {
      var s := NatToString(n);
      assert s[..|s| - 1] == NatToString(n / 10);
      DecimalOfNatToString(n / 10);
    }
  }

  lemma DigitsAreStripped(s: string)
    requires s != [] && AllDigits(s)
    ensures Strip(s) == s
  {
    TrimLeftOfNonSpace(s);
    assert !IsSpace(s[|s| - 1]);
  }

  /** `strip()` leaves a whitespace-free token as it is. */
  lemma TokenIsStripped(s: string)
    requires s != [] && NoSpace(s)
    ensures Strip(s) == s
  {
    TrimLeftOfNonSpace(s);
  }

  /** `int(str(n)) == n` and `int("-" + str(n)) == -n`, for numbers within the digit limit. */
  lemma ParseIntOfNatToString(n: nat)
    requires |NatToString(n)| <= MaxStrDigits
    ensures ParseInt(NatToString(n)) == Some(n)
    ensures ParseInt("-" + NatToString(n)) == Some(-(n as int))
  {
    var s := NatToString(n);
    DecimalOfNatToString(n);
    ParseIntOfDigits(s);
    ParseIntOfNegatedDigits(s);
  }

  /** A run of digits longer than the limit raises, with or without a minus sign. */
  lemma ParseIntOverLimit(s: string)
    requires AllDigits(s) && |s| > MaxStrDigits
    ensures ParseInt(s) == None
    ensures ParseInt("-" + s) == None
  {
    DigitsAreStripped(s);
    SignedDigitsAreStripped(s);
    DigitCountOfDigits(s);
    assert ("-" + s)[1..] == s;
  }

  /** A run of digits has the shape `int()` accepts. */
  lemma DigitsAreGroups(s: string)
    requires s != [] && AllDigits(s)
    ensures DigitGroups(s)
  {
  }

  /** A plain run of digits reads as its decimal value. */
  lemma ParseIntOfDigits(s: string)
    requires s != [] && AllDigits(s) && |s| <= MaxStrDigits
    ensures ParseInt(s) == Some(DecimalValue(s))
  {
    DigitsAreStripped(s);
    DigitsAreParsed(s);
  }

  lemma DigitsAreParsed(s: string)
    requires s != [] && AllDigits(s) && |s| <= MaxStrDigits
    ensures ParseDigits(s) == Some(DecimalValue(s))
  {
    DigitsAreGroups(s);
    DigitCountOfDigits(s);
  }

  /** In a run of plain digits every character counts toward the limit. */
  lemma DigitCountOfDigits(s: string)
    requires AllDigits(s)
    ensures DigitCount(s) == |s|
  {
    assert '_' !in s;
  }

  /** A minus sign before a run of digits negates its value. */
  lemma ParseIntOfNegatedDigits(s: string)
    requires s != [] && AllDigits(s) && |s| <= MaxStrDigits
    ensures ParseInt("-" + s) == Some(-(DecimalValue(s) as int))
  {
    SignedDigitsAreStripped(s);
    NegatedDigitsAreParsed(s);
  }

  lemma SignedDigitsAreStripped(s: string)
    requires s != [] && AllDigits(s)
    ensures Strip("-" + s) == "-" + s
  {
    var m := "-" + s;
    TrimLeftOfNonSpace(m);
    assert m[|m| - 1] == s[|s| - 1];
  }

  lemma NegatedDigitsAreParsed(s: string)
    requires s != [] && AllDigits(s) && |s| <= MaxStrDigits
    ensures ParseSigned("-" + s) == Some(-(DecimalValue(s) as int))
  {
    assert ("-" + s)[1..] == s;
    DigitsAreParsed(s);
  }

  // The order on strings is a total order, so sorting by it is well defined.

  lemma StrLeRefl(a: string)
    ensures StrLe(a, a)
  {
  }

  lemma StrLeTotal(a: string, b: string)
    ensures StrLe(a, b) || StrLe(b, a)
  {
  }

  lemma StrLeTrans(a: string, b: string, c: string)
    requires StrLe(a, b) && StrLe(b, c)
    ensures StrLe(a, c)
  {
  }

  lemma StrLeAntisym(a: string, b: string)
    requires StrLe(a, b) && StrLe(b, a)
    ensures a == b
  {
    if a != [] && b != [] {
      StrLeAntisym(a[1..], b[1..]);
      assert a == [a[0]] + a[1..];
      assert b == [b[0]] + b[1..];
    }
  }
}
