/**
 * The JavaScript string built-ins the tool relies on, over `string` (= seq<char>):
 * the white-space set, String#trim, String#split on one character and on /\s+/,
 * String#includes, String#toLowerCase (ASCII letters), String#padStart / padEnd,
 * String#repeat, Number#toString for integers and parseInt(s, 10).
 */
module JsText {
  import opened Wrappers

  /** ECMAScript WhiteSpace and LineTerminator code points: what trim, parseInt and /\s/ skip. */
  predicate IsWhiteSpace(c: char) {
    || c == '\t' || c == '\n' || c == '\U{000B}' || c == '\U{000C}' || c == '\r' || c == ' '
    || c == '\U{00A0}' || c == '\U{1680}' || '\U{2000}' <= c <= '\U{200A}'
    || c == '\U{2028}' || c == '\U{2029}' || c == '\U{202F}' || c == '\U{205F}'
    || c == '\U{3000}' || c == '\U{FEFF}'
  }

  predicate IsDigit(c: char) {
    '0' <= c <= '9'
  }

  predicate AllWhiteSpace(s: string) {
    forall i :: 0 <= i < |s| ==> IsWhiteSpace(s[i])
  }

  predicate NoWhiteSpace(s: string) {
    forall i :: 0 <= i < |s| ==> !IsWhiteSpace(s[i])
  }

  lemma AllWhiteSpaceConcat(a: string, b: string)
    requires AllWhiteSpace(a) && AllWhiteSpace(b)
    ensures AllWhiteSpace(a + b)
  {
    forall i | 0 <= i < |a + b|
      ensures IsWhiteSpace((a + b)[i])
    {
      if i < |a| {
        assert (a + b)[i] == a[i];
      } else {
        assert (a + b)[i] == b[i - |a|];
      }
    }
  }

  // ---------------------------------------------------------------- trim

  /** The number of white-space characters `s` starts with. */
  function LeadingWhiteSpace(s: string): (k: nat)
    ensures k <= |s| && AllWhiteSpace(s[..k])
    ensures k < |s| ==> !IsWhiteSpace(s[k])
  {
    if s == [] || !IsWhiteSpace(s[0]) then 0
    else
      var t := s[1..];
      var k := 1 + LeadingWhiteSpace(t);
      assert s[..k] == [s[0]] + t[..k - 1];
      AllWhiteSpaceConcat([s[0]], t[..k - 1]);
      assert k < |s| ==> s[k] == t[k - 1];
      k
  }

  /** The number of white-space characters `s` ends with. */
  function TrailingWhiteSpace(s: string): (k: nat)
    ensures k <= |s| && AllWhiteSpace(s[|s| - k..])
    ensures k < |s| ==> !IsWhiteSpace(s[|s| - 1 - k])
  {
    if s == [] || !IsWhiteSpace(s[|s| - 1]) then 0
    else
      var t := s[..|s| - 1];
      var k := 1 + TrailingWhiteSpace(t);
      assert s[|s| - k..] == t[|t| - (k - 1)..] + [s[|s| - 1]];
      AllWhiteSpaceConcat(t[|t| - (k - 1)..], [s[|s| - 1]]);
      assert k < |s| ==> s[|s| - 1 - k] == t[|t| - 1 - (k - 1)];
      k
  }

  function TrimStart(s: string): string {
    s[LeadingWhiteSpace(s)..]
  }

  /** `s.trim()`. */
  function Trim(s: string): string {
    var t := TrimStart(s);
    t[..|t| - TrailingWhiteSpace(t)]
  }

  /** `!s.trim()` holds exactly for the strings made of white space only (the empty one included). */
  lemma TrimEmptyIffBlank(s: string)
    ensures Trim(s) == [] <==> AllWhiteSpace(s)
  {
    var k := LeadingWhiteSpace(s);
    var t := TrimStart(s);
    if k < |s| {
      TrailingShorterThanWord(t);
    } else {
      assert s[..k] == s;
    }
  }

  lemma {:induction false} TrailingShorterThanWord(t: string)
    requires t != [] && !IsWhiteSpace(t[0])
    ensures TrailingWhiteSpace(t) < |t|
  {
    if |t| > 1 && IsWhiteSpace(t[|t| - 1]) {
      TrailingShorterThanWord(t[..|t| - 1]);
    }
  }

  /** A trimmed string neither starts nor ends with white space. */
  lemma TrimNoEdgeSpace(s: string)
    ensures var r := Trim(s); r == [] || (!IsWhiteSpace(r[0]) && !IsWhiteSpace(r[|r| - 1]))
  {
    var t := TrimStart(s);
    if t != [] {
      TrailingShorterThanWord(t);
    }
  }

  lemma {:induction false} TrailingOfPadded(t: string, after: string)
    requires t != [] && !IsWhiteSpace(t[|t| - 1]) && AllWhiteSpace(after)
    ensures TrailingWhiteSpace(t + after) == |after|
    decreases |after|
  {
    if after != [] {
      var s := t + after;
      assert s[..|s| - 1] == t + after[..|after| - 1];
      TrailingOfPadded(t, after[..|after| - 1]);
    } else {
      assert t + after == t;
    }
  }

  /** Trimming strips exactly the white space around a word that has none at its edges. */
  lemma TrimOfPadded(before: string, w: string, after: string)
    requires AllWhiteSpace(before) && AllWhiteSpace(after)
    requires w != [] && !IsWhiteSpace(w[0]) && !IsWhiteSpace(w[|w| - 1])
    ensures Trim(before + w + after) == w
  {
    assert before + w + after == before + (w + after);
    TrimStartSkips(before, w + after);
    assert TrimStart(w + after) == w + after;
    TrailingOfPadded(w, after);
    assert (w + after)[..|w|] == w;
  }

  // ---------------------------------------------------------------- split / join on one character

  /** `s.split(sep)` for a one-character separator: the pieces between separators, empty ones included. */
  function Split(s: string, sep: char): (parts: seq<string>)
    ensures |parts| >= 1
    ensures forall i :: 0 <= i < |parts| ==> sep !in parts[i]
  {
    if s == [] then [[]]
    else
      var rest := Split(s[1..], sep);
      if s[0] == sep then [[]] + rest else [[s[0]] + rest[0]] + rest[1..]
  }

  /** `parts.join(sep)`. */
  function Join(parts: seq<string>, sep: char): string
    requires |parts| >= 1
  {
    if |parts| == 1 then parts[0] else parts[0] + [sep] + Join(parts[1..], sep)
  }

  /** `parts.pop()` on a non-empty array: its last element. */
  function Last<T>(parts: seq<T>): T
    requires |parts| >= 1
  {
    parts[|parts| - 1]
  }

  /** Joining the pieces back with the separator gives the original string. */
  lemma {:induction false} JoinSplit(s: string, sep: char)
    ensures Join(Split(s, sep), sep) == s
  {
    if s != [] {
      var rest := Split(s[1..], sep);
      JoinSplit(s[1..], sep);
      if s[0] == sep {
        assert Split(s, sep)[1..] == rest;
      } else if |rest| > 1 {
        var parts := Split(s, sep);
        assert parts[1..] == rest[1..];
        calc {
          Join(parts, sep);
          [s[0]] + rest[0] + [sep] + Join(rest[1..], sep);
          [s[0]] + Join(rest, sep);
          s;
        }
      }
    }
  }

  lemma {:induction false} SplitWord(w: string, t: string, sep: char)
    requires sep !in w
    ensures Split(w + t, sep) == [w + Split(t, sep)[0]] + Split(t, sep)[1..]
  {
    if w != [] {
      assert (w + t)[1..] == w[1..] + t;
      SplitWord(w[1..], t, sep);
      assert [w[0]] + (w[1..] + Split(t, sep)[0]) == w + Split(t, sep)[0];
    } else {
      var parts := Split(t, sep);
      assert w + t == t && w + parts[0] == parts[0];
      assert [parts[0]] + parts[1..] == parts;
    }
  }

  /** Splitting a join of separator-free pieces gives the pieces back. */
  lemma {:induction false} SplitJoin(parts: seq<string>, sep: char)
    requires |parts| >= 1
    requires forall i :: 0 <= i < |parts| ==> sep !in parts[i]
    ensures Split(Join(parts, sep), sep) == parts
  {
    if |parts| == 1 {
      SplitWord(parts[0], [], sep);
      assert parts[0] + [] == parts[0];
    } else {
      var tail := Join(parts[1..], sep);
      SplitJoin(parts[1..], sep);
      assert Join(parts, sep) == parts[0] + ([sep] + tail);
      SplitWord(parts[0], [sep] + tail, sep);
      assert ([sep] + tail)[1..] == tail;
      assert Split([sep] + tail, sep) == [[]] + Split(tail, sep);
      assert parts[0] + [] == parts[0];
      assert [parts[0]] + parts[1..] == parts;
    }
  }

  /** What follows the first separator: the pieces after a separator-free first piece. */
  lemma SplitAfterFirst(head: string, body: string, sep: char)
    requires sep !in head
    ensures Split(head + [sep] + body, sep) == [head] + Split(body, sep)
  {
    SplitWord(head, [sep] + body, sep);
    assert ([sep] + body)[1..] == body;
    assert Split([sep] + body, sep) == [[]] + Split(body, sep);
    assert head + [sep] + body == head + ([sep] + body);
    assert head + [] == head;
  }

  /** The last piece is whatever follows the last separator, whatever precedes it. */
  lemma {:induction false} LastPieceAfter(prefix: string, name: string, sep: char)
    requires sep !in name
    ensures |Split(prefix + [sep] + name, sep)| >= 2
    ensures Last(Split(prefix + [sep] + name, sep)) == name
  {
    var s := prefix + [sep] + name;
    if prefix == [] {
      assert s == [sep] + name && s[1..] == name;
      SplitWord(name, [], sep);
      assert name + [] == name;
    } else {
      assert s[1..] == prefix[1..] + [sep] + name;
      LastPieceAfter(prefix[1..], name, sep);
    }
  }

  // ---------------------------------------------------------------- split on /\s+/

  /**
   * `s.split(/\s+/)`: the fields between maximal runs of white space; a run at the very
   * start or the very end yields an empty first or last field.
   */
  function SplitWs(s: string): (fields: seq<string>)
    ensures |fields| >= 1
    ensures forall i :: 0 <= i < |fields| ==> NoWhiteSpace(fields[i])
    ensures forall i :: 0 < i < |fields| - 1 ==> fields[i] != []
    ensures s != [] && !IsWhiteSpace(s[0]) ==> fields[0] != []
  {
    if s == [] then [[]]
    else if IsWhiteSpace(s[0]) then
      if |s| > 1 && IsWhiteSpace(s[1]) then SplitWs(s[1..]) else [[]] + SplitWs(s[1..])
    else
      var rest := SplitWs(s[1..]);
      [[s[0]] + rest[0]] + rest[1..]
  }

  lemma {:induction false} SplitWsWord(w: string, t: string)
    requires NoWhiteSpace(w)
    ensures SplitWs(w + t) == [w + SplitWs(t)[0]] + SplitWs(t)[1..]
  {
    if w != [] {
      assert (w + t)[1..] == w[1..] + t;
      SplitWsWord(w[1..], t);
      assert [w[0]] + (w[1..] + SplitWs(t)[0]) == w + SplitWs(t)[0];
    } else {
      var fields := SplitWs(t);
      assert w + t == t && w + fields[0] == fields[0];
      assert [fields[0]] + fields[1..] == fields;
    }
  }

  /** Splitting a space-joined list of non-empty, white-space-free fields gives the fields back. */
  lemma {:induction false} SplitWsJoin(fields: seq<string>)
    requires |fields| >= 1
    requires forall i :: 0 <= i < |fields| ==> fields[i] != [] && NoWhiteSpace(fields[i])
    ensures SplitWs(Join(fields, ' ')) == fields
  {
    if |fields| == 1 {
      SplitWsWord(fields[0], []);
      assert fields[0] + [] == fields[0];
    } else {
      var tail := Join(fields[1..], ' ');
      SplitWsJoin(fields[1..]);
      JoinStartsWith(fields[1..], ' ');
      assert Join(fields, ' ') == fields[0] + ([' '] + tail);
      SplitWsWord(fields[0], [' '] + tail);
      assert ([' '] + tail)[1..] == tail;
      assert tail[0] == fields[1][0];
      assert SplitWs([' '] + tail) == [[]] + SplitWs(tail);
      assert fields[0] + [] == fields[0];
      assert [fields[0]] + fields[1..] == fields;
    }
  }

  lemma {:induction false} JoinStartsWith(parts: seq<string>, sep: char)
    requires |parts| >= 1
    ensures |Join(parts, sep)| >= |parts[0]| && Join(parts, sep)[..|parts[0]|] == parts[0]
  {
    if |parts| > 1 {
      assert Join(parts, sep) == parts[0] + ([sep] + Join(parts[1..], sep));
    }
  }

  // ---------------------------------------------------------------- includes, case, padding

  /** `s.includes(sub)`: `sub` occurs in `s` at some position. */
  predicate Contains(s: string, sub: string)
    decreases |s|
  {
    (|sub| <= |s| && s[..|sub|] == sub) || (s != [] && Contains(s[1..], sub))
  }

  /** A string contains whatever is spliced into it. */
  lemma {:induction false} ContainsSpliced(a: string, sub: string, b: string)
    ensures Contains(a + sub + b, sub)
  {
    var s := a + sub + b;
    if a == [] {
      assert s[..|sub|] == sub;
    } else {
      assert s[1..] == a[1..] + sub + b;
      ContainsSpliced(a[1..], sub, b);
    }
  }

  /** Appending to a string keeps every occurrence it already has. */
  lemma {:induction false} ContainsExtended(a: string, sub: string, b: string)
    requires Contains(a, sub)
    ensures Contains(a + b, sub)
  {
    if |sub| <= |a| && a[..|sub|] == sub {
      assert (a + b)[..|sub|] == a[..|sub|];
    } else {
      assert (a + b)[1..] == a[1..] + b;
      ContainsExtended(a[1..], sub, b);
    }
  }

  function LowerChar(c: char): char {
    if 'A' <= c <= 'Z' then (c as int + 32) as char else c
  }

  /** `s.toLowerCase()`, for the ASCII letters. */
  function ToLower(s: string): (r: string)
    ensures |r| == |s|
    ensures forall i :: 0 <= i < |s| ==> r[i] == LowerChar(s[i])
  {
    seq(|s|, i requires 0 <= i < |s| => LowerChar(s[i]))
  }

  /** `c.repeat(n)`. */
  function Repeat(c: char, n: nat): (r: string)
    ensures |r| == n && forall i :: 0 <= i < n ==> r[i] == c
  {
    seq(n, _ => c)
  }

  /** `s.padStart(width)`: spaces in front up to `width` characters; a longer `s` is unchanged. */
  function PadStart(s: string, width: nat): (r: string)
    ensures |r| == if |s| < width then width else |s|
    ensures r[|r| - |s|..] == s
    ensures forall i :: 0 <= i < |r| - |s| ==> r[i] == ' '
  {
    if |s| < width then Repeat(' ', width - |s|) + s else s
  }

  /** `s.padEnd(width)`: spaces after `s` up to `width` characters; a longer `s` is unchanged. */
  function PadEnd(s: string, width: nat): (r: string)
    ensures |r| == if |s| < width then width else |s|
    ensures r[..|s|] == s
    ensures forall i :: |s| <= i < |r| ==> r[i] == ' '
  {
    if |s| < width then s + Repeat(' ', width - |s|) else s
  }

  // ---------------------------------------------------------------- numbers

  function DigitChar(d: nat): (c: char)
    requires d < 10
    ensures IsDigit(c)
  {
    ('0' as int + d) as char
  }

  function DigitValue(c: char): nat
    requires IsDigit(c)
  {
    c as int - '0' as int
  }

  predicate AllDigits(s: string) {
    forall i :: 0 <= i < |s| ==> IsDigit(s[i])
  }

  /** `n.toString()` for a non-negative integer: its decimal digits. */
  function NatToString(n: nat): (s: string)
    ensures |s| >= 1 && AllDigits(s)
  {
    if n < 10 then [DigitChar(n)] else NatToString(n / 10) + [DigitChar(n % 10)]
  }

  /** `n.toString()` for an integer. */
  function IntToString(n: int): (s: string)
    ensures |s| >= 1 && (s[0] == '-' || IsDigit(s[0]))
  {
    if n < 0 then "-" + NatToString(-n) else NatToString(n)
  }

  /** The value of a string of decimal digits. */
  function DigitsValue(d: string): nat
    requires AllDigits(d)
  {
    if d == [] then 0 else DigitsValue(d[..|d| - 1]) * 10 + DigitValue(d[|d| - 1])
  }

  /** The length of the longest prefix of `u` made of decimal digits. */
  function DigitCount(u: string): (k: nat)
    ensures k <= |u| && AllDigits(u[..k])
    ensures k < |u| ==> !IsDigit(u[k])
  {
    if u == [] || !IsDigit(u[0]) then 0
    else
      var k := 1 + DigitCount(u[1..]);
      assert forall i :: 1 <= i < k ==> u[..k][i] == u[1..][..k - 1][i - 1];
      k
  }

  /**
   * `parseInt(s, 10)`: skip leading white space, take an optional sign, then the longest
   * run of decimal digits; `None` (NaN) when there are no digits.
   */
  function ParseInt(s: string): Option<int> {
    var t := TrimStart(s);
    var negative := |t| > 0 && t[0] == '-';
    var u := if |t| > 0 && (t[0] == '-' || t[0] == '+') then t[1..] else t;
    var k := DigitCount(u);
    if k == 0 then None
    else
      var magnitude: int := DigitsValue(u[..k]);
      Some(if negative then -magnitude else magnitude)
  }

  lemma {:induction false} DigitsValueOfNat(n: nat)
    ensures DigitsValue(NatToString(n)) == n
  {
    if n >= 10 {
      var s := NatToString(n);
      assert s[..|s| - 1] == NatToString(n / 10);
      DigitsValueOfNat(n / 10);
    }
  }

  lemma {:induction false} DigitCountOfDigits(d: string, rest: string)
    requires AllDigits(d)
    requires rest == [] || !IsDigit(rest[0])
    ensures DigitCount(d + rest) == |d|
  {
    if d != [] {
      assert (d + rest)[1..] == d[1..] + rest;
      DigitCountOfDigits(d[1..], rest);
    } else {
      assert d + rest == rest;
    }
  }

  /**
   * parseInt reads back what toString printed, and stops at the first character that is
   * not a digit: `parseInt(n.toString() + rest) == n` whenever `rest` does not start with one.
   */
  lemma ParseIntOfPrinted(n: int, rest: string)
    requires rest == [] || !IsDigit(rest[0])
    ensures ParseInt(IntToString(n) + rest) == Some(n)
  {
    if n < 0 {
      var d := NatToString(-n);
      DigitsValueOfNat(-n);
      assert IntToString(n) + rest == "-" + (d + rest);
      ParseNegative(d, rest);
    } else {
      DigitsValueOfNat(n);
      ParseNonNegative(NatToString(n), rest);
    }
  }

  lemma ParseNonNegative(d: string, rest: string)
    requires AllDigits(d) && d != []
    requires rest == [] || !IsDigit(rest[0])
    ensures ParseInt(d + rest) == Some(DigitsValue(d))
  {
    var s := d + rest;
    assert s[0] == d[0] && !IsWhiteSpace(s[0]);
    assert TrimStart(s) == s;
    ParseDigits(d, rest);
  }

  lemma ParseNegative(d: string, rest: string)
    requires AllDigits(d) && d != []
    requires rest == [] || !IsDigit(rest[0])
    ensures ParseInt("-" + (d + rest)) == Some(-(DigitsValue(d) as int))
  {
    var s := "-" + (d + rest);
    assert !IsWhiteSpace(s[0]);
    assert TrimStart(s) == s;
    assert s[1..] == d + rest;
    ParseDigits(d, rest);
  }

  lemma ParseDigits(d: string, rest: string)
    requires AllDigits(d) && d != []
    requires rest == [] || !IsDigit(rest[0])
    ensures DigitCount(d + rest) == |d| && (d + rest)[..|d|] == d
  {
    DigitCountOfDigits(d, rest);
    assert (d + rest)[..|d|] == d;
  }

  /** parseInt ignores any white space in front of the number. */
  lemma {:induction false} ParseIntSkipsWhiteSpace(w: string, s: string)
    requires AllWhiteSpace(w)
    ensures ParseInt(w + s) == ParseInt(s)
  {
    TrimStartSkips(w, s);
  }

  lemma {:induction false} TrimStartSkips(w: string, s: string)
    requires AllWhiteSpace(w)
    ensures TrimStart(w + s) == TrimStart(s)
  {
    if w != [] {
      assert (w + s)[1..] == w[1..] + s;
      TrimStartSkips(w[1..], s);
    } else {
      assert w + s == s;
    }
  }
}
