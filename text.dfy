/**
 * The few Python `str` operations the application relies on, stated on
 * `seq<char>`: whitespace splitting and stripping (`split()`,
 * `split(maxsplit=1)`, `strip()`), ASCII case mapping (`lower()`, `upper()`),
 * single-character `replace`, `sep.join(parts)`, `s.split(c)` and `str(n)`
 * for natural numbers.
 */
module Text {

  /** The characters Python's `str.isspace` accepts; `split()` and `strip()` use the same set. */
  const Whitespace: set<char> := {
    ' ', '\t', '\n', '\U{0B}', '\U{0C}', '\r', '\U{1C}', '\U{1D}', '\U{1E}', '\U{1F}',
    '\U{85}', '\U{A0}', '\U{1680}',
    '\U{2000}', '\U{2001}', '\U{2002}', '\U{2003}', '\U{2004}', '\U{2005}',
    '\U{2006}', '\U{2007}', '\U{2008}', '\U{2009}', '\U{200A}',
    '\U{2028}', '\U{2029}', '\U{202F}', '\U{205F}', '\U{3000}'
  }

  predicate IsSpace(c: char) {
    c in Whitespace
  }

  predicate AllSpace(s: string) {
    forall i :: 0 <= i < |s| ==> IsSpace(s[i])
  }

  predicate NoSpace(s: string) {
    forall i :: 0 <= i < |s| ==> !IsSpace(s[i])
  }

  // ---------------------------------------------------------------------------
  // Whitespace splitting and stripping

  /** Drops the leading whitespace of `s`. */
  function SkipSpace(s: string): (r: string)
    ensures |r| <= |s|
    ensures forall i :: 0 <= i < |s| - |r| ==> IsSpace(s[i])
    ensures r == [] || !IsSpace(r[0])
  {
    if s != [] && IsSpace(s[0]) then SkipSpace(s[1..]) else s
  }

  /** Drops the trailing whitespace of `s`. */
  function TrimEnd(s: string): (r: string)
    ensures r <= s
    ensures forall i :: |r| <= i < |s| ==> IsSpace(s[i])
    ensures r == [] || !IsSpace(r[|r| - 1])
  {
    if s != [] && IsSpace(s[|s| - 1]) then TrimEnd(s[..|s| - 1]) else s
  }

  /**
   * Python's `s.strip()`: the stretch of `s` left after cutting its leading and
   * trailing whitespace.
   */
  function Strip(s: string): (r: string)
    ensures exists a, b :: 0 <= a <= b <= |s| && r == s[a..b] && AllSpace(s[..a]) && AllSpace(s[b..])
    ensures r == [] <==> AllSpace(s)
    ensures r == [] || (!IsSpace(r[0]) && !IsSpace(r[|r| - 1]))
  {
    var t := SkipSpace(s);
    var r := TrimEnd(t);
    SkipSpaceEmpty(s);
    assert r != [] ==> r[0] == t[0];
    var a := LeadingSpaces(s);
    SkipSpaceDrop(s);
    TrimmedSlice(s, t, r, a);
    r
  }

  /** A prefix of `s[a..]` with only whitespace around it is a slice of `s` with only whitespace around it. */
  lemma TrimmedSlice(s: string, t: string, r: string, a: nat)
    requires a <= |s| && t == s[a..] && r <= t
    requires forall i :: 0 <= i < |s| - |t| ==> IsSpace(s[i])
    requires forall i :: |r| <= i < |t| ==> IsSpace(t[i])
    ensures a + |r| <= |s| && r == s[a..a + |r|] && AllSpace(s[..a]) && AllSpace(s[a + |r|..])
  {
    forall i | a + |r| <= i < |s| ensures IsSpace(s[i]) {
      assert s[i] == t[i - a];
    }
  }

  /** The longest prefix of `s` that holds no whitespace. */
  function TakeWord(s: string): (w: string)
    ensures w <= s && NoSpace(w)
    ensures |w| == |s| || IsSpace(s[|w|])
  {
    if s != [] && !IsSpace(s[0]) then [s[0]] + TakeWord(s[1..]) else []
  }

  /** Python's `s.split()`: the maximal runs of non-whitespace, in order. */
  function Words(s: string): seq<string>
    decreases |s|
  {
    var t := SkipSpace(s);
    if t == [] then []
    else
      var w := TakeWord(t);
      assert w != [];
      [w] + Words(t[|w|..])
  }

  /**
   * Python's `s.split(maxsplit=1)`: the first word, then (when anything but
   * whitespace follows it) the rest of the string from the next word on,
   * trailing whitespace included.
   */
  function SplitOnce(s: string): (parts: seq<string>)
    ensures |parts| <= 2
    ensures parts == [] <==> AllSpace(s)
  {
    var t := SkipSpace(s);
    SkipSpaceEmpty(s);
    if t == [] then []
    else
      var w := TakeWord(t);
      var rest := SkipSpace(t[|w|..]);
      if rest == [] then [w] else [w, rest]
  }

  /**
   * The parts of `split(maxsplit=1)` are the first word and a string that
   * holds exactly the other words.
   */
  lemma SplitOnceWords(s: string)
    ensures var parts := SplitOnce(s);
      && (parts != [] ==> parts[0] == Words(s)[0])
      && (|parts| == 1 ==> Words(s) == [parts[0]])
      && (|parts| == 2 ==> Words(s) == [parts[0]] + Words(parts[1]))
  {
    var t := SkipSpace(s);
    SkipSpaceEmpty(s);
    if t == [] {
      WordsEmpty(s);
    } else {
      var w := TakeWord(t);
      var rest := SkipSpace(t[|w|..]);
      assert Words(s) == [w] + Words(rest) by {
        WordsStep(s);
        WordsSkipSpace(t[|w|..]);
      }
      if rest == [] {
        assert Words(rest) == [] by { WordsEmpty(rest); }
      }
    }
  }

  /** The second part of `split(maxsplit=1)` is a tail of the string that starts with a non-space. */
  lemma SplitOnceSuffix(s: string)
    ensures var parts := SplitOnce(s);
      |parts| == 2 ==> parts[1] != [] && !IsSpace(parts[1][0]) && |parts[1]| <= |s| && parts[1] == s[|s| - |parts[1]|..]
  {
    var parts := SplitOnce(s);
    if |parts| == 2 {
      var t := SkipSpace(s);
      var w := TakeWord(t);
      var u := t[|w|..];
      var k1 := SkipSpaceCount(s);
      var k2 := SkipSpaceCount(u);
      TailOfTail(s, t, u, parts[1], k1, |w|, k2);
    }
  }

  /** A tail of a tail of a tail of `s` is a tail of `s`. */
  lemma TailOfTail(s: string, t: string, u: string, r: string, a: nat, b: nat, c: nat)
    requires a <= |s| && t == s[a..] && b <= |t| && u == t[b..] && c <= |u| && r == u[c..]
    ensures |r| <= |s| && r == s[|s| - |r|..]
  {
    assert r == s[a + b + c..];
  }

  /** How many leading characters `SkipSpace` drops. */
  function LeadingSpaces(s: string): (k: nat)
    ensures k <= |s|
    decreases |s|
  {
    if s != [] && IsSpace(s[0]) then LeadingSpaces(s[1..]) + 1 else 0
  }

  /** `SkipSpace` drops `k` characters, for the `k` returned. */
  lemma SkipSpaceCount(s: string) returns (k: nat)
    ensures k <= |s| && SkipSpace(s) == s[k..]
  {
    k := LeadingSpaces(s);
    SkipSpaceDrop(s);
  }

  /** `SkipSpace` drops exactly `LeadingSpaces(s)` characters. */
  lemma {:induction false} SkipSpaceDrop(s: string)
    ensures SkipSpace(s) == s[LeadingSpaces(s)..]
    decreases |s|
  {
    if s != [] && IsSpace(s[0]) {
      SkipSpaceDrop(s[1..]);
      assert s[1..][LeadingSpaces(s[1..])..] == s[LeadingSpaces(s)..];
    }
  }

  /** Leading whitespace does not change the words of a string. */
  lemma WordsSkipSpace(s: string)
    ensures Words(SkipSpace(s)) == Words(s)
  {
    var t := SkipSpace(s);
    assert SkipSpace(t) == t;
  }

  lemma {:induction false} SkipSpaceAppend(s: string, c: char)
    requires !AllSpace(s)
    ensures SkipSpace(s + [c]) == SkipSpace(s) + [c]
    decreases |s|
  {
    if IsSpace(s[0]) {
      assert (s + [c])[1..] == s[1..] + [c];
      assert !AllSpace(s[1..]) by {
        var i :| 0 <= i < |s| && !IsSpace(s[i]);
        assert s[1..][i - 1] == s[i];
      }
      SkipSpaceAppend(s[1..], c);
    }
  }

  lemma {:induction false} TakeWordAppend(s: string, c: char)
    requires IsSpace(c)
    ensures TakeWord(s + [c]) == TakeWord(s)
    decreases |s|
  {
    if s == [] {
    } else if !IsSpace(s[0]) {
      assert (s + [c])[1..] == s[1..] + [c];
      TakeWordAppend(s[1..], c);
    }
  }

  lemma SkipSpaceEmpty(s: string)
    ensures SkipSpace(s) == [] <==> AllSpace(s)
  {
  }

  /** A string has no words exactly when it is all whitespace. */
  lemma WordsEmpty(s: string)
    ensures Words(s) == [] <==> AllSpace(s)
  {
    SkipSpaceEmpty(s);
  }

  /** One step of `Words`: the first word, then the words of what follows it. */
  lemma WordsStep(s: string)
    requires !AllSpace(s)
    ensures var t := SkipSpace(s); var w := TakeWord(t);
      t != [] && w != [] && Words(s) == [w] + Words(t[|w|..])
  {
  }

  /** Appending one whitespace character does not change the words of a string. */
  lemma {:induction false} WordsAppendSpace(s: string, c: char)
    requires IsSpace(c)
    ensures Words(s + [c]) == Words(s)
    decreases |s|
  {
    if AllSpace(s) {
      assert AllSpace(s + [c]);
      WordsEmpty(s);
      WordsEmpty(s + [c]);
    } else {
      var t := SkipSpace(s);
      var w := TakeWord(t);
      var rest := t[|w|..];
      assert |rest| < |s| && Words(s) == [w] + Words(rest) by {
        WordsStep(s);
      }
      assert Words(s + [c]) == [w] + Words(rest + [c]) by {
        SkipSpaceAppend(s, c);
        assert !AllSpace(s + [c]) by {
          var i :| 0 <= i < |s| && !IsSpace(s[i]);
          assert (s + [c])[i] == s[i];
        }
        WordsStep(s + [c]);
        TakeWordAppend(t, c);
        assert (t + [c])[|w|..] == rest + [c];
      }
      WordsAppendSpace(rest, c);
    }
  }

  /** Trailing whitespace does not change the words of a string. */
  lemma {:induction false} WordsTrimEnd(s: string)
    ensures Words(TrimEnd(s)) == Words(s)
    decreases |s|
  {
    if s != [] && IsSpace(s[|s| - 1]) {
      WordsTrimEnd(s[..|s| - 1]);
      assert s == s[..|s| - 1] + [s[|s| - 1]];
      WordsAppendSpace(s[..|s| - 1], s[|s| - 1]);
    }
  }

  /** Stripping a string keeps its words: `s.strip().split() == s.split()`. */
  lemma WordsStrip(s: string)
    ensures Words(Strip(s)) == Words(s)
  {
    WordsTrimEnd(SkipSpace(s));
    WordsSkipSpace(s);
  }

  // ---------------------------------------------------------------------------
  // Case mapping (ASCII letters only)

  function LowerChar(c: char): char {
    if 'A' <= c <= 'Z' then (c as int + 32) as char else c
  }

  function UpperChar(c: char): char {
    if 'a' <= c <= 'z' then (c as int - 32) as char else c
  }

  /** Python's `s.lower()` on ASCII letters. */
  function Lower(s: string): (r: string)
    ensures |r| == |s| && forall i :: 0 <= i < |s| ==> r[i] == LowerChar(s[i])
  {
    seq(|s|, i requires 0 <= i < |s| => LowerChar(s[i]))
  }

  /** Python's `s.upper()` on ASCII letters. */
  function Upper(s: string): (r: string)
    ensures |r| == |s| && forall i :: 0 <= i < |s| ==> r[i] == UpperChar(s[i])
  {
    seq(|s|, i requires 0 <= i < |s| => UpperChar(s[i]))
  }

  /** Python's `s.replace(a, b)` for single characters `a` and `b`. */
  function ReplaceChar(s: string, a: char, b: char): (r: string)
    ensures |r| == |s| && forall i :: 0 <= i < |s| ==> r[i] == (if s[i] == a then b else s[i])
  {
    seq(|s|, i requires 0 <= i < |s| => if s[i] == a then b else s[i])
  }

  // ---------------------------------------------------------------------------
  // Joining and splitting on a separator

  /** Python's `sep.join(parts)`. */
  function Join(parts: seq<string>, sep: string): string {
    if parts == [] then ""
    else if |parts| == 1 then parts[0]
    else parts[0] + sep + Join(parts[1..], sep)
  }

  /** Python's `s.split(c)` for a single character `c`: never an empty list. */
  function SplitOn(s: string, c: char): (parts: seq<string>)
    ensures |parts| >= 1
    ensures forall i :: 0 <= i < |parts| ==> c !in parts[i]
  {
    if s == [] then [""]
    else
      var rest := SplitOn(s[1..], c);
      if s[0] == c then [""] + rest else [[s[0]] + rest[0]] + rest[1..]
  }

  lemma {:induction false} SplitOnPrefix(x: string, y: string, c: char)
    requires c !in x
    ensures SplitOn(x + y, c) == [x + SplitOn(y, c)[0]] + SplitOn(y, c)[1..]
    decreases |x|
  {
    if x != [] {
      assert (x + y)[1..] == x[1..] + y;
      SplitOnPrefix(x[1..], y, c);
      assert [x[0]] + (x[1..] + SplitOn(y, c)[0]) == x + SplitOn(y, c)[0];
    } else {
      assert x + y == y && x + SplitOn(y, c)[0] == SplitOn(y, c)[0];
    }
  }

  /**
   * Joining with a one-character separator and splitting on it again gives back
   * the parts, provided no part holds the separator.
   */
  lemma {:induction false} SplitJoin(parts: seq<string>, c: char)
    requires parts != []
    requires forall i :: 0 <= i < |parts| ==> c !in parts[i]
    ensures SplitOn(Join(parts, [c]), c) == parts
    decreases |parts|
  {
    if |parts| == 1 {
      SplitOnPrefix(parts[0], [], c);
      assert parts[0] + [] == parts[0];
    } else {
      var tail := Join(parts[1..], [c]);
      assert Join(parts, [c]) == parts[0] + ([c] + tail);
      SplitOnPrefix(parts[0], [c] + tail, c);
      assert ([c] + tail)[1..] == tail;
      var after := SplitOn([c] + tail, c);
      assert after == [""] + SplitOn(tail, c);
      assert after[0] == "" && after[1..] == SplitOn(tail, c);
      assert parts[0] + after[0] == parts[0];
      SplitJoin(parts[1..], c);
      assert parts == [parts[0]] + parts[1..];
    }
  }

  // ---------------------------------------------------------------------------
  // Decimal rendering of natural numbers

  predicate IsDigit(c: char) {
    '0' <= c <= '9'
  }

  function DigitChar(d: nat): (c: char)
    requires d < 10
    ensures IsDigit(c) && c as int - '0' as int == d
  {
    ('0' as int + d) as char
  }

  /** Python's `str(n)` for a natural number. */
  function Decimal(n: nat): (r: string)
    ensures r != [] && forall i :: 0 <= i < |r| ==> IsDigit(r[i])
  {
    if n < 10 then [DigitChar(n)] else Decimal(n / 10) + [DigitChar(n % 10)]
  }

  /** The number a string of decimal digits denotes. */
  function DecimalValue(s: string): nat
    requires forall i :: 0 <= i < |s| ==> IsDigit(s[i])
  {
    if s == [] then 0
    else
      assert IsDigit(s[|s| - 1]);
      DecimalValue(s[..|s| - 1]) * 10 + (s[|s| - 1] as int - '0' as int)
  }

  /** `str(n)` denotes `n`: reading the digits back gives the number. */
  lemma {:induction false} DecimalRoundTrip(n: nat)
    ensures DecimalValue(Decimal(n)) == n
  {
    if n >= 10 {
      DecimalRoundTrip(n / 10);
      var s := Decimal(n);
      assert s[..|s| - 1] == Decimal(n / 10);
    }
  }
}
