/** The JavaScript string built-ins the tool relies on, stated on `seq<char>`:
    `Array.prototype.join` and `String.prototype.split` with a one-character
    separator, `String.prototype.trim`, and the decimal rendering of a
    non-negative integer in a template literal. */
module Text {

  /** `m` occurs in `s` starting at index `p`. */
  predicate OccursAt(s: string, p: nat, m: string)
  {
    p + |m| <= |s| && s[p..p + |m|] == m
  }

  /** Where `m` occurs, its characters are those of `s`. */
  lemma OccursAtIndex(s: string, p: nat, m: string, i: nat)
    requires i < |m|
    ensures OccursAt(s, p, m) ==> s[p + i] == m[i]
  {
    if OccursAt(s, p, m) {
      assert s[p..p + |m|][i] == s[p + i];
    }
  }

  /** `m` is a contiguous piece of `s`. */
  ghost predicate IsInfix(m: string, s: string)
  {
    exists p: nat :: OccursAt(s, p, m)
  }

  // ---------------------------------------------------------------- join / split

  /** `parts.join(sep)`: the parts in order, one separator between neighbours. */
  function Join(parts: seq<string>, sep: char): string
  {
    if |parts| == 0 then ""
    else if |parts| == 1 then parts[0]
    else parts[0] + [sep] + Join(parts[1..], sep)
  }

  /** A join opens with the first part and closes with the last. */
  lemma {:induction false} JoinEnds(parts: seq<string>, sep: char)
    requires |parts| > 0
    ensures parts[0] <= Join(parts, sep)
    ensures var r, last := Join(parts, sep), parts[|parts| - 1];
      |last| <= |r| && r[|r| - |last|..] == last
  {
    if |parts| > 1 {
      JoinEnds(parts[1..], sep);
      var rest := Join(parts[1..], sep);
      assert Join(parts, sep) == parts[0] + [sep] + rest;
      assert parts[1..][|parts| - 2] == parts[|parts| - 1];
    }
  }

  /** Index of the first `c` in `s`, or `|s|` when there is none. */
  function IndexOf(s: string, c: char): (k: nat)
    ensures k <= |s|
    ensures forall j :: 0 <= j < k ==> s[j] != c
    ensures k < |s| ==> s[k] == c
  {
    if |s| == 0 then 0
    else if s[0] == c then 0
    else 1 + IndexOf(s[1..], c)
  }

  /** `s.split(sep)`: the maximal separator-free pieces of `s`, in order;
      there is always at least one piece (`"".split(sep)` is `[""]`). */
  function Split(s: string, sep: char): (parts: seq<string>)
    ensures |parts| > 0
    ensures forall i :: 0 <= i < |parts| ==> sep !in parts[i]
    decreases |s|
  {
    var k := IndexOf(s, sep);
    if k == |s| then [s] else [s[..k]] + Split(s[k + 1..], sep)
  }

  /** Joining a first piece in front of one or more others. */
  lemma JoinFirst(first: string, rest: seq<string>, sep: char)
    requires |rest| > 0
    ensures Join([first] + rest, sep) == first + [sep] + Join(rest, sep)
  {
    assert ([first] + rest)[1..] == rest;
  }

  /** Joining the pieces of a split with the same separator gives back the string. */
  lemma {:induction false} JoinSplit(s: string, sep: char)
    ensures Join(Split(s, sep), sep) == s
    decreases |s|
  {
    var k := IndexOf(s, sep);
    if k < |s| {
      var head, tail := s[..k], s[k + 1..];
      JoinSplit(tail, sep);
      JoinFirst(head, Split(tail, sep), sep);
      assert s == head + [sep] + tail;
    }
  }

  /** Splitting a join of separator-free parts gives back the parts. */
  lemma {:induction false} SplitJoin(parts: seq<string>, sep: char)
    requires |parts| > 0
    requires forall i :: 0 <= i < |parts| ==> sep !in parts[i]
    ensures Split(Join(parts, sep), sep) == parts
  {
    if |parts| == 1 {
      FirstIndexOf(parts[0], sep, "");
    } else {
      var tail := Join(parts[1..], sep);
      FirstIndexOf(parts[0], sep, tail);
      var s := parts[0] + [sep] + tail;
      assert s[..|parts[0]|] == parts[0];
      assert s[|parts[0]| + 1..] == tail;
      SplitJoin(parts[1..], sep);
      assert [parts[0]] + parts[1..] == parts;
    }
  }

  /** The first separator of `a + [c] + b` is the one right after a separator-free `a`;
      a separator-free string has none. */
  lemma FirstIndexOf(a: string, c: char, b: string)
    requires c !in a
    ensures IndexOf(a, c) == |a|
    ensures IndexOf(a + [c] + b, c) == |a|
  {
    var s := a + [c] + b;
    assert forall j :: 0 <= j < |a| ==> s[j] == a[j] && a[j] in a;
    assert s[|a|] == c;
  }

  // ---------------------------------------------------------------- trim

  /** The characters `String.prototype.trim` removes: ECMAScript WhiteSpace
      (tab, vertical tab, form feed, no-break space, byte order mark, every
      space separator) and LineTerminator (LF, CR, LS, PS). */
  predicate IsWhitespace(c: char)
  {
    c == '\t' || c == '\n' || c == '\U{B}' || c == '\U{C}' || c == '\r' || c == ' '
    || c == '\U{A0}' || c == '\U{1680}' || ('\U{2000}' <= c <= '\U{200A}')
    || c == '\U{2028}' || c == '\U{2029}' || c == '\U{202F}' || c == '\U{205F}'
    || c == '\U{3000}' || c == '\U{FEFF}'
  }

  predicate IsBlank(s: string)
  {
    forall i :: 0 <= i < |s| ==> IsWhitespace(s[i])
  }

  /** Number of leading whitespace characters. */
  function LeadingWhitespace(s: string): (k: nat)
    ensures k <= |s|
    ensures forall j :: 0 <= j < k ==> IsWhitespace(s[j])
    ensures k < |s| ==> !IsWhitespace(s[k])
  {
    if |s| == 0 || !IsWhitespace(s[0]) then 0 else 1 + LeadingWhitespace(s[1..])
  }

  /** Length of `s` once its trailing whitespace is cut off. */
  function WithoutTrailingWhitespace(s: string): (k: nat)
    ensures k <= |s|
    ensures forall j :: k <= j < |s| ==> IsWhitespace(s[j])
    ensures k > 0 ==> !IsWhitespace(s[k - 1])
  {
    if |s| == 0 || !IsWhitespace(s[|s| - 1]) then |s| else WithoutTrailingWhitespace(s[..|s| - 1])
  }

  /** `s.trim()`: the piece of `s` left after removing whitespace at both ends.
      Only whitespace is removed; the result is empty exactly when `s` is
      blank, and otherwise starts and ends with a character that is not
      whitespace. */
  function Trim(s: string): (r: string)
    ensures IsInfix(r, s)
    ensures r == "" <==> IsBlank(s)
    ensures r != "" ==> !IsWhitespace(r[0]) && !IsWhitespace(r[|r| - 1])
  {
    var a := LeadingWhitespace(s);
    var rest := s[a..];
    var b := WithoutTrailingWhitespace(rest);
    TrimPiece(s, a, b);
    rest[..b]
  }

  /** The facts `Trim` promises, about the piece between the two cut points. */
  lemma TrimPiece(s: string, a: nat, b: nat)
    requires a == LeadingWhitespace(s) && b == WithoutTrailingWhitespace(s[a..])
    ensures IsInfix(s[a..][..b], s)
    ensures s[a..][..b] == "" <==> IsBlank(s)
    ensures b > 0 ==> !IsWhitespace(s[a..][..b][0]) && !IsWhitespace(s[a..][..b][b - 1])
  {
    PieceIsInfix(s, a, b);
    PieceBetweenBlanks(s, a, b);
  }

  /** Between a whitespace-only prefix of length `a` and a whitespace-only
      tail after `b` more characters, with no whitespace right after the
      prefix and right before the tail, lies a piece that is empty exactly
      when `s` is blank. */
  lemma PieceBetweenBlanks(s: string, a: nat, b: nat)
    requires a <= |s| && b <= |s| - a
    requires forall j :: 0 <= j < a ==> IsWhitespace(s[j])
    requires a < |s| ==> !IsWhitespace(s[a])
    requires forall j :: b <= j < |s| - a ==> IsWhitespace(s[a..][j])
    requires b > 0 ==> !IsWhitespace(s[a..][b - 1])
    ensures s[a..][..b] == "" <==> IsBlank(s)
    ensures b > 0 ==> !IsWhitespace(s[a..][..b][0]) && !IsWhitespace(s[a..][..b][b - 1])
  {
    var rest := s[a..];
    if b == 0 {
      // the first character after the leading whitespace would be whitespace too
      assert a == |s|;
      assert rest[..b] == "";
    } else {
      assert rest[0] == s[a] && rest[b - 1] == s[a + b - 1];
      assert !IsBlank(s);
    }
  }

  /** `s` is a blank prefix of length `a`, then `r`, then a blank suffix. */
  predicate BlankAround(s: string, a: nat, r: string)
  {
    a + |r| <= |s| && s[a..a + |r|] == r && IsBlank(s[..a]) && IsBlank(s[a + |r|..])
  }

  /** The `b` characters from index `a` on are a piece of `s`. */
  lemma PieceIsInfix(s: string, a: nat, b: nat)
    requires a + b <= |s|
    ensures IsInfix(s[a..][..b], s)
  {
    assert OccursAt(s, a, s[a..][..b]) by {
      assert s[a..a + b] == s[a..][..b];
    }
  }

  /** Trimming removes whitespace and nothing else: the input is a blank
      prefix, the trimmed text and a blank suffix. */
  lemma TrimRemovesOnlyWhitespace(s: string)
    ensures BlankAround(s, LeadingWhitespace(s), Trim(s))
  {
    var a := LeadingWhitespace(s);
    var b := WithoutTrailingWhitespace(s[a..]);
    BlankAroundCut(s, a, b);
    assert Trim(s) == s[a..][..b];
  }

  /** Cutting whitespace-only ends off `s` at `a` and `a + b` leaves a blank
      prefix and a blank suffix around the piece kept. */
  lemma BlankAroundCut(s: string, a: nat, b: nat)
    requires a <= |s| && b <= |s| - a
    requires forall j :: 0 <= j < a ==> IsWhitespace(s[j])
    requires forall j :: b <= j < |s| - a ==> IsWhitespace(s[a..][j])
    ensures BlankAround(s, a, s[a..][..b])
  {
    var rest := s[a..];
    assert IsBlank(s[..a]) by {
      forall j | 0 <= j < a ensures IsWhitespace(s[..a][j]) {
        assert s[..a][j] == s[j];
      }
    }
    assert IsBlank(s[a + b..]) by {
      var tail := s[a + b..];
      forall j | 0 <= j < |tail| ensures IsWhitespace(tail[j]) {
        assert tail[j] == rest[b + j];
      }
    }
  }

  // ---------------------------------------------------------------- decimal numbers

  predicate IsDigit(c: char)
  {
    '0' <= c <= '9'
  }

  predicate AllDigits(s: string)
  {
    forall i :: 0 <= i < |s| ==> IsDigit(s[i])
  }

  function DigitChar(d: nat): (c: char)
    requires d < 10
    ensures IsDigit(c)
  {
    ('0' as int + d) as char
  }

  /** The decimal rendering of `n` in a template literal: non-empty, digits
      only, and without a leading zero unless `n` is zero. */
  function NatToString(n: nat): (s: string)
    ensures |s| > 0 && AllDigits(s)
    ensures s[0] == '0' <==> n == 0
    ensures n == 0 ==> s == "0"
    decreases n
  {
    if n < 10 then [DigitChar(n)] else NatToString(n / 10) + [DigitChar(n % 10)]
  }

  /** The number a string of decimal digits denotes. */
  function DecimalValue(s: string): nat
    requires AllDigits(s)
  {
    if |s| == 0 then 0
    else 10 * DecimalValue(s[..|s| - 1]) + (s[|s| - 1] as int - '0' as int)
  }

  /** Decimal digits as `NatToString` writes them: at least one, and no
      leading zero unless the number is zero itself. */
  predicate IsCanonicalDecimal(s: string)
  {
    |s| > 0 && AllDigits(s) && (s[0] == '0' ==> |s| == 1)
  }

  /** A canonical string of digits is the rendering of the number it denotes. */
  lemma {:induction false} CanonicalDecimalRoundTrip(s: string)
    requires IsCanonicalDecimal(s)
    ensures NatToString(DecimalValue(s)) == s
    decreases |s|
  {
    var last := s[|s| - 1];
    var d := last as int - '0' as int;
    assert DigitChar(d) == last;
    if |s| == 1 {
      assert s[..0] == "";
      assert s == [last];
    } else {
      var p := s[..|s| - 1];
      assert p[0] == s[0];
      CanonicalDecimalRoundTrip(p);
      var v := DecimalValue(p);
      assert v != 0 by {
        assert NatToString(v)[0] == s[0] != '0';
      }
      var n := 10 * v + d;
      assert n / 10 == v && n % 10 == d;
      assert NatToString(n) == NatToString(v) + [DigitChar(d)];
      assert s == p + [last];
    }
  }

  /** Rendering a number in decimal and reading it back gives the number. */
  lemma {:induction false} DecimalRoundTrip(n: nat)
    ensures DecimalValue(NatToString(n)) == n
    decreases n
  {
    var s := NatToString(n);
    if n >= 10 {
      DecimalRoundTrip(n / 10);
      assert s[..|s| - 1] == NatToString(n / 10);
    }
  }
}
