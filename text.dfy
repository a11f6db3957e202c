/** String operations the importer takes from its string class: splitting and
    joining on one character, character replacement, trimming, prefix tests,
    decimal conversion and the two `section` forms the core uses. Strings are
    sequences of characters; no Unicode normalisation is modelled. */
module Text {

  /** Whitespace as the string class's trimming and number conversion see
      it: ASCII 9..13, NEL, and every character of the Unicode categories
      space separator (space, NO-BREAK SPACE, OGHAM SPACE MARK, U+2000..U+200A,
      NARROW NO-BREAK SPACE, MEDIUM MATHEMATICAL SPACE, IDEOGRAPHIC SPACE),
      line separator and paragraph separator. */
  predicate IsSpace(c: char) {
    c == ' ' || ('\t' <= c <= '\r') || c == '\U{0085}' || c == '\U{00A0}'
    || c == '\U{1680}' || ('\U{2000}' <= c <= '\U{200A}')
    || c == '\U{2028}' || c == '\U{2029}'
    || c == '\U{202F}' || c == '\U{205F}' || c == '\U{3000}'
  }

  predicate IsDigit(c: char) {
    '0' <= c <= '9'
  }

  /** The class `[a-zA-Z0-9]` of the macro-token pattern. */
  predicate IsAsciiAlnum(c: char) {
    'a' <= c <= 'z' || 'A' <= c <= 'Z' || IsDigit(c)
  }

  predicate AllDigits(s: string) {
    forall k :: 0 <= k < |s| ==> IsDigit(s[k])
  }

  predicate NoSpace(s: string) {
    forall k :: 0 <= k < |s| ==> !IsSpace(s[k])
  }

  /** Index of the first `c` in `s`, or `|s|` when there is none. */
  function IndexOf(s: string, c: char): (i: nat)
    ensures i <= |s|
    ensures i < |s| ==> s[i] == c
    ensures forall k :: 0 <= k < i ==> s[k] != c
  {
    if s == [] then 0
    else if s[0] == c then 0
    else 1 + IndexOf(s[1..], c)
  }

  /** The pieces joined back with `sep` between them. */
  function Join(parts: seq<string>, sep: char): string
  {
    if |parts| == 0 then ""
    else if |parts| == 1 then parts[0]
    else parts[0] + [sep] + Join(parts[1..], sep)
  }

  /** Splitting on every `sep`, keeping empty pieces (so "" gives [""]). */
  function Split(s: string, sep: char): (parts: seq<string>)
    ensures |parts| >= 1
    ensures forall k :: 0 <= k < |parts| ==> sep !in parts[k]
    ensures Join(parts, sep) == s
    ensures |parts| == 1 <==> sep !in s
    decreases |s|
  {
    var i := IndexOf(s, sep);
    if i == |s| then
      [s]
    else
      var rest := Split(s[i + 1..], sep);
      SplitAtFirst(s, sep, i, rest);
      [s[..i]] + rest
  }

  /** The pieces after the first separator, with the text before it in
      front, are again a split of the whole string. */
  lemma SplitAtFirst(s: string, sep: char, i: nat, rest: seq<string>)
    requires i < |s| && s[i] == sep && forall k :: 0 <= k < i ==> s[k] != sep
    requires |rest| >= 1 && forall k :: 0 <= k < |rest| ==> sep !in rest[k]
    requires Join(rest, sep) == s[i + 1..]
    ensures var parts := [s[..i]] + rest;
      && |parts| >= 2
      && (forall k :: 0 <= k < |parts| ==> sep !in parts[k])
      && Join(parts, sep) == s
      && sep in s
  {
    var head, parts := s[..i], [s[..i]] + rest;
    assert s == head + [sep] + s[i + 1..];
    assert parts[1..] == rest;
    assert forall k :: 1 <= k < |parts| ==> parts[k] == rest[k - 1];
  }

  /** Element `i` of a list, or "" past its end (a string list's `value(i)`). */
  function Piece(parts: seq<string>, i: nat): string
  {
    if i < |parts| then parts[i] else ""
  }

  lemma {:induction false} IndexOfJoin(a: string, sep: char, b: string)
    requires sep !in a
    ensures IndexOf(a + [sep] + b, sep) == |a|
  {
    var s := a + [sep] + b;
    var i := IndexOf(s, sep);
    assert s[|a|] == sep;
    assert forall k :: 0 <= k < |a| ==> s[k] == a[k];
  }

  /** Splitting what was joined gives the pieces back, when no piece holds
      the separator: the partner of `Split`'s own join property. */
  lemma {:induction false} SplitJoin(parts: seq<string>, sep: char)
    requires |parts| >= 1
    requires forall k :: 0 <= k < |parts| ==> sep !in parts[k]
    ensures Split(Join(parts, sep), sep) == parts
  {
    if |parts| == 1 {
    } else {
      var rest := Join(parts[1..], sep);
      assert Join(parts, sep) == parts[0] + [sep] + rest;
      SplitStep(parts[0], sep, rest);
      SplitJoin(parts[1..], sep);
      assert parts == [parts[0]] + parts[1..];
    }
  }

  /** One step of `Split`: a separator-free head, the separator, then the rest. */
  lemma {:induction false} SplitStep(a: string, sep: char, b: string)
    requires sep !in a
    ensures Split(a + [sep] + b, sep) == [a] + Split(b, sep)
  {
    var s := a + [sep] + b;
    IndexOfJoin(a, sep, b);
    assert s[|a| + 1..] == b;
    assert s[..|a|] == a;
  }

  /** Join of all pieces but the last, then the separator and the last piece. */
  lemma {:induction false} JoinSnoc(parts: seq<string>, sep: char)
    requires |parts| >= 2
    ensures Join(parts, sep) == Join(parts[..|parts| - 1], sep) + [sep] + parts[|parts| - 1]
  {
    if |parts| == 2 {
      assert parts[..1] == [parts[0]];
    } else {
      var init, tail, last := parts[..|parts| - 1], parts[1..], parts[|parts| - 1];
      var mid := Join(init[1..], sep);
      JoinSnoc(tail, sep);
      assert tail[..|tail| - 1] == init[1..] && tail[|tail| - 1] == last;
      assert Join(parts, sep) == parts[0] + [sep] + (mid + [sep] + last);
      assert Join(init, sep) == parts[0] + [sep] + mid;
      assert parts[0] + [sep] + (mid + [sep] + last) == (parts[0] + [sep] + mid) + [sep] + last;
    }
  }

  /** Every `from` becomes `to`; nothing else changes. */
  function ReplaceChar(s: string, from: char, to: char): (r: string)
    ensures |r| == |s|
    ensures forall k :: 0 <= k < |s| ==> r[k] == if s[k] == from then to else s[k]
    ensures from != to ==> from !in r
  {
    if s == [] then ""
    else [if s[0] == from then to else s[0]] + ReplaceChar(s[1..], from, to)
  }

  /** Number of leading whitespace characters. */
  function LeadingSpace(s: string): (n: nat)
    ensures n <= |s|
    ensures forall k :: 0 <= k < n ==> IsSpace(s[k])
    ensures n < |s| ==> !IsSpace(s[n])
  {
    if s == [] || !IsSpace(s[0]) then 0 else 1 + LeadingSpace(s[1..])
  }

  /** Length of `s` once trailing whitespace is dropped. */
  function EndWithoutSpace(s: string): (n: nat)
    ensures n <= |s|
    ensures forall k :: n <= k < |s| ==> IsSpace(s[k])
    ensures n > 0 ==> !IsSpace(s[n - 1])
  {
    if s == [] || !IsSpace(s[|s| - 1]) then |s| else EndWithoutSpace(s[..|s| - 1])
  }

  /** Whitespace removed from both ends. The result is the part of `s` that
      lies between a whitespace-only head and a whitespace-only tail, and it
      neither starts nor ends with whitespace. */
  function Trimmed(s: string): (r: string)
    ensures exists i, j :: 0 <= i <= j <= |s| && r == s[i..j]
              && (forall k :: 0 <= k < i ==> IsSpace(s[k]))
              && (forall k :: j <= k < |s| ==> IsSpace(s[k]))
    ensures r != [] ==> !IsSpace(r[0]) && !IsSpace(r[|r| - 1])
  {
    var i := LeadingSpace(s);
    var j := EndWithoutSpace(s);
    if i < j then
      s[i..j]
    else
      assert j == 0 && s[0..0] == [];
      []
  }

  lemma TrimmedNoSpace(s: string)
    requires s != [] && !IsSpace(s[0]) && !IsSpace(s[|s| - 1])
    ensures Trimmed(s) == s
  {
  }

  /** Value of a run of decimal digits. */
  function DigitsValue(d: string): nat
    requires AllDigits(d)
  {
    if d == [] then 0 else DigitsValue(d[..|d| - 1]) * 10 + (d[|d| - 1] - '0') as int
  }

  const IntMin: int := -0x8000_0000
  const IntMax: int := 0x7FFF_FFFF

  /** Decimal conversion to a 32-bit integer: surrounding whitespace, an
      optional sign, then one or more digits. Anything else, and any value
      outside the 32-bit range, reads as 0 (the conversion's failure value). */
  function ToInt(s: string): (r: int)
    ensures IntMin <= r <= IntMax
  {
    var t := Trimmed(s);
    var signed := |t| > 0 && (t[0] == '-' || t[0] == '+');
    var body := if signed then t[1..] else t;
    if |body| == 0 || !AllDigits(body) then 0
    else
      var v: int := if signed && t[0] == '-' then -(DigitsValue(body) as int) else DigitsValue(body);
      if IntMin <= v <= IntMax then v else 0
  }

  /** Decimal rendering of a natural number, without leading zeros. */
  function Decimal(n: nat): (d: string)
    ensures |d| >= 1 && AllDigits(d)
    ensures |d| > 1 ==> d[0] != '0'
  {
    if n < 10 then ['0' + n as char] else Decimal(n / 10) + ['0' + (n % 10) as char]
  }

  lemma {:induction false} DigitsValueDecimal(n: nat)
    ensures DigitsValue(Decimal(n)) == n
  {
    if n >= 10 {
      DigitsValueDecimal(n / 10);
      var d := Decimal(n);
      assert d[..|d| - 1] == Decimal(n / 10);
    }
  }

  /** Reading back a rendered non-negative 32-bit value gives the value. */
  lemma {:induction false} ToIntDecimal(n: nat)
    requires n <= IntMax
    ensures ToInt(Decimal(n)) == n
  {
    var d := Decimal(n);
    assert !IsSpace(d[0]) && !IsSpace(d[|d| - 1]);
    TrimmedNoSpace(d);
    DigitsValueDecimal(n);
  }

  /** A string that holds a character other than digits, sign and whitespace
      reads as 0. */
  lemma ToIntNonNumeric(s: string, k: nat)
    requires k < |s| && !IsDigit(s[k]) && !IsSpace(s[k]) && s[k] != '-' && s[k] != '+'
    ensures ToInt(s) == 0
  {
    NonDigitInWindow(s, Trimmed(s), k);
  }

  /** A non-blank, non-sign, non-digit character of `s` lies inside any
      window `t` that only cuts blanks off `s`, so `t` without its sign is not
      all digits. */
  lemma NonDigitInWindow(s: string, t: string, k: nat)
    requires k < |s| && !IsDigit(s[k]) && !IsSpace(s[k]) && s[k] != '-' && s[k] != '+'
    requires exists i, j :: 0 <= i <= j <= |s| && t == s[i..j]
               && (forall m :: 0 <= m < i ==> IsSpace(s[m]))
               && (forall m :: j <= m < |s| ==> IsSpace(s[m]))
    ensures !AllDigits(if |t| > 0 && (t[0] == '-' || t[0] == '+') then t[1..] else t)
  {
    var i, j :| 0 <= i <= j <= |s| && t == s[i..j]
              && (forall m :: 0 <= m < i ==> IsSpace(s[m]))
              && (forall m :: j <= m < |s| ==> IsSpace(s[m]));
    assert i <= k < j;
    if |t| > 0 && (t[0] == '-' || t[0] == '+') {
      assert k != i;
      assert t[1..][k - i - 1] == s[k];
    } else {
      assert t[k - i] == s[k];
    }
  }

  function ToLowerAscii(c: char): char {
    if 'A' <= c <= 'Z' then (c as int + 32) as char else c
  }

  /** Comparison ignoring the case of ASCII letters. */
  predicate EqualsIgnoreCase(a: string, b: string) {
    |a| == |b| && forall k :: 0 <= k < |a| ==> ToLowerAscii(a[k]) == ToLowerAscii(b[k])
  }

  /** `section(sep, 0, -2)`: every field but the last, or "" when there is a
      single field. */
  function SectionUpToLast(s: string, sep: char): string
  {
    JoinInit(Split(s, sep), sep)
  }

  /** All pieces but the last, joined; "" for a single piece. */
  function JoinInit(parts: seq<string>, sep: char): string
  {
    if |parts| < 2 then "" else Join(parts[..|parts| - 1], sep)
  }

  /** `section(sep, -2, -1)`: the last TWO fields with the separator between
      them, or the whole string when it holds no separator. */
  function SectionLastTwo(s: string, sep: char): string
  {
    var f := Split(s, sep);
    Join(f[if |f| >= 2 then |f| - 2 else 0..], sep)
  }

  /** The text after the last separator. */
  function LastField(s: string, sep: char): string
  {
    var f := Split(s, sep);
    f[|f| - 1]
  }

  /** `SectionUpToLast` is everything before the last separator: with the
      separator and the last field put back it gives the string again, and
      without a separator it is empty. */
  lemma {:induction false} SectionUpToLastSplits(s: string, sep: char)
    ensures sep in s ==> SectionUpToLast(s, sep) + [sep] + LastField(s, sep) == s
    ensures sep !in s ==> SectionUpToLast(s, sep) == ""
    ensures sep !in LastField(s, sep)
  {
    var f := Split(s, sep);
    if |f| >= 2 {
      JoinSnoc(f, sep);
    }
  }

  /** `SectionLastTwo` of a string with at most one separator is the string
      itself. */
  lemma {:induction false} SectionLastTwoWhole(s: string, sep: char)
    requires |Split(s, sep)| <= 2
    ensures SectionLastTwo(s, sep) == s
  {
    var f := Split(s, sep);
    assert f[0..] == f;
  }
}
