/** The string operations the reports rely on: ASCII upper-casing,
    `", ".join(...)`, decimal rendering of counts and the code-point
    ordering Python's `sorted` applies to names. */
module Text {

  /** Upper-cases one ASCII letter; every other character is kept. */
  function UpperChar(c: char): char {
    if 'a' <= c <= 'z' then (c as int - 32) as char else c
  }

  /** `str.upper()` on ASCII text. */
  function Upper(s: string): (r: string)
    ensures |r| == |s|
    ensures forall i :: 0 <= i < |r| ==> !('a' <= r[i] <= 'z')
    ensures forall i :: 0 <= i < |r| ==> r[i] == s[i] || r[i] as int == s[i] as int - 32
    ensures forall i :: 0 <= i < |s| && 'a' <= s[i] <= 'z' ==> r[i] as int == s[i] as int - 32
    ensures forall i :: 0 <= i < |s| && !('a' <= s[i] <= 'z') ==> r[i] == s[i]
  {
    seq(|s|, i requires 0 <= i < |s| => UpperChar(s[i]))
  }

  /** Upper-casing twice is upper-casing once, so comparing upper-cased
      values is insensitive to which side was upper-cased already. */
  lemma UpperIdempotent(s: string)
    ensures Upper(Upper(s)) == Upper(s)
  {
  }

  /** `sep.join(parts)`. */
  function Join(parts: seq<string>, sep: string): string {
    if |parts| == 0 then ""
    else if |parts| == 1 then parts[0]
    else parts[0] + sep + Join(parts[1..], sep)
  }

  function DigitChar(d: nat): char
    requires d < 10
  {
    ('0' as int + d) as char
  }

  predicate IsDigit(c: char) {
    '0' <= c <= '9'
  }

  /** Decimal rendering of a count, as `%d` and `f"{n}"` produce it. */
  function NatToString(n: nat): (s: string)
    ensures |s| >= 1
    ensures forall i :: 0 <= i < |s| ==> IsDigit(s[i])
    ensures s[0] == '0' ==> n == 0
    decreases n
  {
    if n < 10 then [DigitChar(n)] else NatToString(n / 10) + [DigitChar(n % 10)]
  }

  /** The number a string of decimal digits denotes. */
  function DecimalValue(s: string): nat
    requires forall i :: 0 <= i < |s| ==> IsDigit(s[i])
  {
    if |s| == 0 then 0
    else
      assert IsDigit(s[|s| - 1]);
      DecimalValue(s[..|s| - 1]) * 10 + (s[|s| - 1] as int - '0' as int)
  }

  /** Reading back a rendered count gives the count. */
  lemma {:induction false} DecimalRoundTrip(n: nat)
    ensures DecimalValue(NatToString(n)) == n
    decreases n
  {
    if n >= 10 {
      var s := NatToString(n);
      assert s[..|s| - 1] == NatToString(n / 10);
      DecimalRoundTrip(n / 10);
    }
  }

  /** Python's ordering of `str` values: lexicographic by code point. */
  predicate LessEq(a: string, b: string) {
    |a| == 0 || (|b| > 0 && (a[0] < b[0] || (a[0] == b[0] && LessEq(a[1..], b[1..]))))
  }

  lemma {:induction false} LessEqReflexive(a: string)
    ensures LessEq(a, a)
  {
    if |a| > 0 {
      LessEqReflexive(a[1..]);
    }
  }

  lemma {:induction false} LessEqAntisymmetric(a: string, b: string)
    requires LessEq(a, b) && LessEq(b, a)
    ensures a == b
  {
    if |a| > 0 && |b| > 0 {
      LessEqAntisymmetric(a[1..], b[1..]);
      assert a == [a[0]] + a[1..] && b == [b[0]] + b[1..];
    }
  }

  lemma {:induction false} LessEqTransitive(a: string, b: string, c: string)
    requires LessEq(a, b) && LessEq(b, c)
    ensures LessEq(a, c)
  {
    if |a| > 0 && |b| > 0 && |c| > 0 && a[0] == b[0] == c[0] {
      LessEqTransitive(a[1..], b[1..], c[1..]);
    }
  }

  lemma {:induction false} LessEqTotal(a: string, b: string)
    ensures LessEq(a, b) || LessEq(b, a)
  {
    if |a| > 0 && |b| > 0 && a[0] == b[0] {
      LessEqTotal(a[1..], b[1..]);
    }
  }

  ghost predicate SortedStrings(s: seq<string>) {
    forall i, j :: 0 <= i < j < |s| ==> LessEq(s[i], s[j])
  }

  /** Places `x` before the first element it does not exceed. */
  function InsertString(x: string, s: seq<string>): (r: seq<string>)
    requires SortedStrings(s)
    ensures SortedStrings(r)
    ensures multiset(r) == multiset(s) + multiset{x}
  {
    if |s| == 0 then [x]
    else if LessEq(x, s[0]) then
      InsertAtFront(x, s);
      [x] + s
    else
      SortedTail(s);
      var t := InsertString(x, s[1..]);
      LessEqTotal(x, s[0]);
      StringHeadBound(s, x, t);
      SortedCons(s[0], t);
      assert s == [s[0]] + s[1..];
      [s[0]] + t
  }

  lemma SortedTail(s: seq<string>)
    requires SortedStrings(s) && |s| > 0
    ensures SortedStrings(s[1..])
  {
    forall i, j | 0 <= i < j < |s| - 1 ensures LessEq(s[1..][i], s[1..][j]) {
      assert s[1..][i] == s[i + 1];
    }
  }

  lemma SortedCons(e: string, t: seq<string>)
    requires SortedStrings(t)
    requires forall k :: 0 <= k < |t| ==> LessEq(e, t[k])
    ensures SortedStrings([e] + t)
  {
    forall i, j | 0 <= i < j < |t| + 1 ensures LessEq(([e] + t)[i], ([e] + t)[j]) {
      assert ([e] + t)[j] == t[j - 1];
    }
  }

  /** The head of a sorted list is at most every element of a permutation
      of its tail plus an element it does not exceed. */
  lemma StringHeadBound(s: seq<string>, x: string, t: seq<string>)
    requires SortedStrings(s) && |s| > 0 && LessEq(s[0], x)
    requires multiset(t) == multiset(s[1..]) + multiset{x}
    ensures forall k :: 0 <= k < |t| ==> LessEq(s[0], t[k])
  {
    forall k | 0 <= k < |t| ensures LessEq(s[0], t[k]) {
      assert t[k] in multiset(t);
      if t[k] != x {
        assert t[k] in s[1..];
      }
    }
  }

  lemma InsertAtFront(x: string, s: seq<string>)
    requires SortedStrings(s) && |s| > 0 && LessEq(x, s[0])
    ensures SortedStrings([x] + s)
  {
    forall j | 0 < j < |s| ensures LessEq(x, s[j]) {
      LessEqTransitive(x, s[0], s[j]);
    }
  }

  /** `sorted(names)`: an ordered permutation of its input. */
  function SortStrings(s: seq<string>): (r: seq<string>)
    ensures SortedStrings(r)
    ensures multiset(r) == multiset(s)
  {
    if |s| == 0 then []
    else
      assert s == [s[0]] + s[1..];
      InsertString(s[0], SortStrings(s[1..]))
  }

  /** Two ordered sequences holding the same names are the same sequence. */
  lemma {:induction false} SortedUnique(a: seq<string>, b: seq<string>)
    requires SortedStrings(a) && SortedStrings(b)
    requires multiset(a) == multiset(b)
    ensures a == b
  {
    assert |a| == |multiset(a)| == |multiset(b)| == |b|;
    if |a| > 0 {
      SortedHeadsEqual(a, b);
      SortedTail(a);
      SortedTail(b);
      assert a == [a[0]] + a[1..] && b == [b[0]] + b[1..];
      assert multiset(a[1..]) == multiset(a) - multiset{a[0]};
      assert multiset(b[1..]) == multiset(b) - multiset{b[0]};
      SortedUnique(a[1..], b[1..]);
    }
  }

  /** Two sorted permutations of each other start with the same element. */
  lemma SortedHeadsEqual(a: seq<string>, b: seq<string>)
    requires SortedStrings(a) && SortedStrings(b) && |a| > 0 && |b| > 0
    requires multiset(a) == multiset(b)
    ensures a[0] == b[0]
  {
    assert b[0] in multiset(a);
    var i :| 0 <= i < |a| && a[i] == b[0];
    assert a[0] in multiset(b);
    var j :| 0 <= j < |b| && b[j] == a[0];
    LessEqReflexive(a[0]);
    LessEqReflexive(b[0]);
    LessEqAntisymmetric(a[0], b[0]);
  }

  /** `sorted` of a collection does not depend on the order in which the
      collection was enumerated. */
  lemma SortStringsOrderIndependent(a: seq<string>, b: seq<string>)
    requires multiset(a) == multiset(b)
    ensures SortStrings(a) == SortStrings(b)
  {
    SortedUnique(SortStrings(a), SortStrings(b));
  }

  /** `text.split("\n")`: the pieces between line breaks; there is always
      at least one. */
  function SplitLines(s: string): (lines: seq<string>)
    ensures |lines| >= 1
  {
    if |s| == 0 then [""]
    else if s[0] == '\n' then [""] + SplitLines(s[1..])
    else
      var rest := SplitLines(s[1..]);
      [[s[0]] + rest[0]] + rest[1..]
  }

  /** A piece without line breaks followed by a line break starts a new line. */
  lemma {:induction false} SplitAfterLine(a: string, b: string)
    requires '\n' !in a
    ensures SplitLines(a + "\n" + b) == [a] + SplitLines(b)
  {
    if |a| == 0 {
      assert a + "\n" + b == "\n" + b;
      assert ("\n" + b)[1..] == b;
    } else {
      assert (a + "\n" + b)[1..] == a[1..] + "\n" + b;
      assert a[1..] == a[1..] && forall i :: 0 <= i < |a[1..]| ==> a[1..][i] == a[i + 1];
      SplitAfterLine(a[1..], b);
      assert [a[0]] + a[1..] == a;
    }
  }

  /** Text without line breaks is one line. */
  lemma {:induction false} SplitSingleLine(a: string)
    requires '\n' !in a
    ensures SplitLines(a) == [a]
  {
    if |a| > 0 {
      assert forall i :: 0 <= i < |a[1..]| ==> a[1..][i] == a[i + 1];
      SplitSingleLine(a[1..]);
      assert [a[0]] + a[1..] == a;
    }
  }

  /** Joining lines with line breaks and splitting the result gives the
      lines back, when none of them holds a line break itself. */
  lemma {:induction false} SplitJoin(lines: seq<string>)
    requires |lines| >= 1
    requires forall i :: 0 <= i < |lines| ==> '\n' !in lines[i]
    ensures SplitLines(Join(lines, "\n")) == lines
  {
    if |lines| == 1 {
      SplitSingleLine(lines[0]);
    } else {
      SplitJoin(lines[1..]);
      SplitAfterLine(lines[0], Join(lines[1..], "\n"));
      assert lines == [lines[0]] + lines[1..];
    }
  }

  /** `e` lists the elements of `s`, each once: one iteration order of a set. */
  ghost predicate Enumerates(e: seq<string>, s: set<string>) {
    && (forall x :: x in e <==> x in s)
    && (forall i, j :: 0 <= i < j < |e| ==> e[i] != e[j])
  }

  lemma {:induction false} EnumerationLength(e: seq<string>, s: set<string>)
    requires Enumerates(e, s)
    ensures |e| == |s|
    ensures multiset(e) == multiset(s)
  {
    if |e| > 0 {
      var x := e[|e| - 1];
      var p := e[..|e| - 1];
      assert e == p + [x];
      assert x !in p;
      assert Enumerates(p, s - {x});
      EnumerationLength(p, s - {x});
      assert s == (s - {x}) + {x};
    } else {
      assert s == {};
    }
  }

  /** The names of a set in Python's order of `str` values. */
  ghost function SortedElements(s: set<string>): (r: seq<string>)
    ensures SortedStrings(r) && Enumerates(r, s)
  {
    var e := EnumerationOf(s);
    EnumerationLength(e, s);
    var r := SortStrings(e);
    assert forall x :: x in r <==> x in multiset(r);
    assert forall x :: multiset(r)[x] <= 1 by {
      forall x ensures multiset(r)[x] <= 1 {
        assert multiset(r)[x] == multiset(s)[x];
      }
    }
    DistinctFromCounts(r);
    r
  }

  /** A sequence in which nothing occurs twice has no repeated element. */
  lemma {:induction false} DistinctFromCounts(r: seq<string>)
    requires forall x :: multiset(r)[x] <= 1
    ensures forall i, j :: 0 <= i < j < |r| ==> r[i] != r[j]
  {
    if |r| > 0 {
      var p, x := r[..|r| - 1], r[|r| - 1];
      assert r == p + [x];
      assert forall y :: multiset(p)[y] <= multiset(r)[y];
      DistinctFromCounts(p);
      assert multiset(r)[x] == multiset(p)[x] + 1;
      assert x !in multiset(p);
      assert forall i :: 0 <= i < |p| ==> r[i] == p[i] && p[i] in multiset(p);
    }
  }

  /** Some iteration order of a finite set. */
  ghost function EnumerationOf(s: set<string>): (e: seq<string>)
    ensures Enumerates(e, s)
    decreases |s|
  {
    if s == {} then []
    else
      var x :| x in s;
      [x] + EnumerationOf(s - {x})
  }

  /** Sorting any iteration order of a set gives its sorted elements. */
  lemma SortEnumeration(e: seq<string>, s: set<string>)
    requires Enumerates(e, s)
    ensures SortStrings(e) == SortedElements(s)
  {
    EnumerationLength(e, s);
    EnumerationLength(SortedElements(s), s);
    SortedUnique(SortStrings(e), SortedElements(s));
  }

  // `repr` of a string, as `str(set_of_strings)` shows each element.

  /** The quote `repr` puts around a string: double quotes when it holds a
      single quote and no double quote, single quotes otherwise. */
  function ReprQuote(s: string): (q: char)
    ensures q == '"' <==> '\'' in s && '"' !in s
    ensures q == '\'' || q == '"'
  {
    if '\'' in s && '"' !in s then '"' else '\''
  }

  function HexDigit(d: nat): (c: char)
    requires d < 16
  {
    if d < 10 then ('0' as int + d) as char else ('a' as int + d - 10) as char
  }

  function HexValue(c: char): (d: nat)
    ensures d < 16
  {
    if '0' <= c <= '9' then c as int - '0' as int
    else if 'a' <= c <= 'f' then c as int - 'a' as int + 10
    else 0
  }

  lemma HexDigitValue(d: nat)
    requires d < 16
    ensures HexValue(HexDigit(d)) == d
  {
  }

  /** How `repr` writes one character inside quotes `q`: the quote and the
      backslash get a backslash, tab, newline and carriage return their
      letter escapes, other control characters and DEL a `\xhh` escape, and
      everything else stands for itself. */
  function EscapeChar(c: char, q: char): string {
    if c == q || c == '\\' then ['\\', c]
    else if c == '\t' then "\\t"
    else if c == '\n' then "\\n"
    else if c == '\r' then "\\r"
    else if c as int < 32 || c as int == 127 then ['\\', 'x', HexDigit(c as int / 16), HexDigit(c as int % 16)]
    else [c]
  }

  function Escaped(s: string, q: char): string {
    if |s| == 0 then [] else EscapeChar(s[0], q) + Escaped(s[1..], q)
  }

  /** `repr(s)`. */
  function Repr(s: string): (r: string)
    ensures |r| >= 2 && r[0] == r[|r| - 1] == ReprQuote(s)
  {
    var q := ReprQuote(s);
    [q] + Escaped(s, q) + [q]
  }

  /** The character a backslash escape `\c` stands for. */
  function EscapeMeaning(c: char): char {
    if c == 't' then '\t' else if c == 'n' then '\n' else if c == 'r' then '\r' else c
  }

  /** Reads the inside of a string literal back, the way Python's parser does
      for the escapes `repr` writes. */
  function Unescape(t: string): string
    decreases |t|
  {
    if |t| == 0 then []
    else if t[0] == '\\' && |t| >= 4 && t[1] == 'x' then
      [(16 * HexValue(t[2]) + HexValue(t[3])) as char] + Unescape(t[4..])
    else if t[0] == '\\' && |t| >= 2 then [EscapeMeaning(t[1])] + Unescape(t[2..])
    else [t[0]] + Unescape(t[1..])
  }

  lemma UnescapeChar(c: char, q: char, rest: string)
    requires q == '\'' || q == '"'
    ensures Unescape(EscapeChar(c, q) + rest) == [c] + Unescape(rest)
  {
    var t := EscapeChar(c, q) + rest;
    if c == q || c == '\\' {
      assert t[0] == '\\' && t[1] == c && t[2..] == rest;
    } else if c == '\t' || c == '\n' || c == '\r' {
      assert t[0] == '\\' && t[2..] == rest;
    } else if c as int < 32 || c as int == 127 {
      HexDigitValue(c as int / 16);
      HexDigitValue(c as int % 16);
      assert t[0] == '\\' && t[1] == 'x' && t[4..] == rest;
      assert t[..4] == EscapeChar(c, q);
    } else {
      assert t[0] == c && t[1..] == rest;
    }
  }

  lemma {:induction false} UnescapeEscaped(s: string, q: char)
    requires q == '\'' || q == '"'
    ensures Unescape(Escaped(s, q)) == s
  {
    if |s| > 0 {
      var rest := Escaped(s[1..], q);
      UnescapeChar(s[0], q, rest);
      UnescapeEscaped(s[1..], q);
      assert Unescape(Escaped(s, q)) == [s[0]] + Unescape(rest);
      assert s == [s[0]] + s[1..];
    }
  }

  /** Reading the quoted text of `repr(s)` back gives `s`. */
  lemma ReprRoundTrip(s: string)
    ensures var r := Repr(s);
            Unescape(r[1..|r| - 1]) == s
  {
    var q := ReprQuote(s);
    var r := Repr(s);
    assert r[1..|r| - 1] == Escaped(s, q);
    UnescapeEscaped(s, q);
  }

  /** A string that needs no escape, printable ASCII or beyond ASCII and
      without a single quote or backslash, is shown between single quotes
      as it is. */
  lemma {:induction false} PlainEscaped(s: string, q: char)
    requires q == '\''
    requires forall i :: 0 <= i < |s| ==> s[i] != '\'' && s[i] != '\\' && s[i] as int >= 32 && s[i] as int != 127
    ensures Escaped(s, q) == s
  {
    if |s| > 0 {
      PlainEscaped(s[1..], q);
      assert s == [s[0]] + s[1..];
    }
  }

  lemma PlainRepr(s: string)
    requires forall i :: 0 <= i < |s| ==> s[i] != '\'' && s[i] != '\\' && s[i] as int >= 32 && s[i] as int != 127
    ensures Repr(s) == "'" + s + "'"
  {
    assert '\'' !in s;
    PlainEscaped(s, '\'');
  }

  /** A name holding an apostrophe and no double quote, and nothing else
      to escape, is shown between double quotes as it is. */
  lemma ApostropheRepr(s: string)
    requires '\'' in s
    requires forall i :: 0 <= i < |s| ==> s[i] != '"' && s[i] != '\\' && s[i] as int >= 32 && s[i] as int != 127
    ensures Repr(s) == "\"" + s + "\""
  {
    assert '"' !in s;
    PlainEscapedDouble(s);
  }

  lemma {:induction false} PlainEscapedDouble(s: string)
    requires forall i :: 0 <= i < |s| ==> s[i] != '"' && s[i] != '\\' && s[i] as int >= 32 && s[i] as int != 127
    ensures Escaped(s, '"') == s
  {
    if |s| > 0 {
      PlainEscapedDouble(s[1..]);
      assert s == [s[0]] + s[1..];
    }
  }
}
