/** The part of the JavaScript string library the application relies on,
    over a simple character alphabet: white space, lower-casing, `includes`,
    `join`, `split(/\s+/)`, `trim`, truncation with an ellipsis, and decimal
    rendering (`toString`) and parsing (`parseInt`) of integers. */
module Text {

  /** The characters that the `\s` class and `String.prototype.trim` treat as
      white space. */
  predicate IsWhitespace(c: char) {
    || c == ' ' || c == '\t' || c == '\n' || c == '\r' || c == '\U{B}' || c == '\U{C}'
    || c == '\U{A0}' || c == '\U{1680}' || ('\U{2000}' <= c <= '\U{200A}')
    || c == '\U{2028}' || c == '\U{2029}' || c == '\U{202F}' || c == '\U{205F}'
    || c == '\U{3000}' || c == '\U{FEFF}'
  }

  predicate IsBlank(s: string) {
    forall i :: 0 <= i < |s| ==> IsWhitespace(s[i])
  }

  predicate NoWhitespace(s: string) {
    forall i :: 0 <= i < |s| ==> !IsWhitespace(s[i])
  }

  // ---------------------------------------------------------------------
  // Case and containment

  /** `toLowerCase` on one character: only the ASCII capitals change. */
  function LowerChar(c: char): char {
    if 'A' <= c <= 'Z' then (c as int + 32) as char else c
  }

  function Lower(s: string): (r: string)
    ensures |r| == |s|
    ensures forall i :: 0 <= i < |s| ==> r[i] == LowerChar(s[i])
  {
    seq(|s|, i requires 0 <= i < |s| => LowerChar(s[i]))
  }

  predicate StartsWith(s: string, prefix: string) {
    |prefix| <= |s| && s[..|prefix|] == prefix
  }

  predicate EndsWith(s: string, suffix: string) {
    |suffix| <= |s| && s[|s| - |suffix|..] == suffix
  }

  lemma StartsWithConcat(a: string, b: string)
    ensures StartsWith(a + b, a)
  {
    assert (a + b)[..|a|] == a;
  }

  lemma EndsWithConcat(a: string, b: string)
    ensures EndsWith(a + b, b)
  {
    assert (a + b)[|a|..] == b;
  }

  lemma StartsWithTrans(a: string, b: string, c: string)
    requires StartsWith(a, b) && StartsWith(b, c)
    ensures StartsWith(a, c)
  {
    assert a[..|c|] == a[..|b|][..|c|];
  }

  lemma EndsWithOfConcat(a: string, b: string, c: string)
    requires EndsWith(b, c)
    ensures EndsWith(a + b, c)
  {
    assert (a + b)[|a + b| - |c|..] == b[|b| - |c|..];
  }

  /** `hay.includes(needle)`: the needle occurs at some offset of the hay. */
  predicate Contains(hay: string, needle: string)
    decreases |hay|
  {
    StartsWith(hay, needle) || (hay != [] && Contains(hay[1..], needle))
  }

  lemma {:induction false} ContainsAt(hay: string, needle: string, i: nat)
    requires i + |needle| <= |hay| && hay[i..i + |needle|] == needle
    ensures Contains(hay, needle)
    decreases i
  {
    if i > 0 {
      assert hay[1..][i - 1..i - 1 + |needle|] == hay[i..i + |needle|];
      ContainsAt(hay[1..], needle, i - 1);
    }
  }

  lemma {:induction false} ContainsWitness(hay: string, needle: string) returns (i: nat)
    requires Contains(hay, needle)
    ensures i + |needle| <= |hay| && hay[i..i + |needle|] == needle
    decreases |hay|
  {
    if StartsWith(hay, needle) {
      i := 0;
    } else {
      var j := ContainsWitness(hay[1..], needle);
      assert hay[1..][j..j + |needle|] == hay[j + 1..j + 1 + |needle|];
      i := j + 1;
    }
  }

  // ---------------------------------------------------------------------
  // Slicing

  /** `s.slice(0, n)` / `s.substring(0, n)` for a non-negative `n`. */
  function Take(s: string, n: nat): (r: string)
    ensures |r| == if |s| <= n then |s| else n
    ensures StartsWith(s, r)
  {
    if |s| <= n then s else s[..n]
  }

  /** The first `n` characters, followed by "..." exactly when `s` is longer
      than `n` (the shape every truncated label of the application has). */
  function Ellipsize(s: string, n: nat): (r: string)
    ensures |r| <= n + 3
    ensures StartsWith(r, Take(s, n))
    ensures |s| <= n ==> r == s
    ensures |s| > n ==> r[n..] == "..."
  {
    if |s| > n then s[..n] + "..." else s
  }

  /** A truncated label, with its ellipsis (if any) removed, is a prefix of
      the original text. */
  lemma EllipsizeIsPrefix(s: string, n: nat)
    ensures var r := Ellipsize(s, n);
            StartsWith(s, if |s| > n then r[..|r| - 3] else r)
  {
  }

  // ---------------------------------------------------------------------
  // Join and split

  /** `xs.join(sep)`. */
  function Join(xs: seq<string>, sep: string): string {
    if |xs| == 0 then ""
    else if |xs| == 1 then xs[0]
    else xs[0] + sep + Join(xs[1..], sep)
  }

  /** Joining one more piece adds a separator and the piece at the end. */
  lemma {:induction false} JoinAppend(xs: seq<string>, x: string, sep: string)
    requires xs != []
    ensures Join(xs + [x], sep) == Join(xs, sep) + sep + x
    decreases |xs|
  {
    if |xs| == 1 {
      assert xs + [x] == [xs[0], x];
    } else {
      assert (xs + [x])[1..] == xs[1..] + [x];
      JoinAppend(xs[1..], x, sep);
    }
  }

  /** `xs.join("")`. */
  function Concat(xs: seq<string>): string {
    if xs == [] then "" else xs[0] + Concat(xs[1..])
  }

  lemma {:induction false} JoinStartsWithFirst(xs: seq<string>, sep: string)
    requires xs != []
    ensures StartsWith(Join(xs, sep), xs[0])
  {
    if |xs| > 1 {
      assert Join(xs, sep) == xs[0] + (sep + Join(xs[1..], sep));
    }
  }

  /** `s.trimStart()`: drops the leading run of white space. */
  function TrimStart(s: string): (r: string)
    ensures r == [] || !IsWhitespace(r[0])
    ensures |r| <= |s| && r == s[|s| - |r|..]
    ensures IsBlank(s[..|s| - |r|])
    decreases |s|
  {
    if s != [] && IsWhitespace(s[0]) then
      var r := TrimStart(s[1..]);
      assert s[..|s| - |r|] == [s[0]] + s[1..][..|s| - 1 - |r|];
      r
    else s
  }

  /** `s.trimEnd()`: drops the trailing run of white space. */
  function TrimEnd(s: string): (r: string)
    ensures r == [] || !IsWhitespace(r[|r| - 1])
    ensures |r| <= |s| && r == s[..|r|]
    ensures IsBlank(s[|r|..])
    decreases |s|
  {
    if s != [] && IsWhitespace(s[|s| - 1]) then
      var r := TrimEnd(s[..|s| - 1]);
      assert s[|r|..] == s[..|s| - 1][|r|..] + [s[|s| - 1]];
      r
    else s
  }

  /** `s.trim()`. */
  function Trim(s: string): string {
    TrimEnd(TrimStart(s))
  }

  /** `s.trim()` is empty exactly when `s` consists of white space only. */
  lemma TrimEmptyIffBlank(s: string)
    ensures Trim(s) == "" <==> IsBlank(s)
  {
    var r1 := TrimStart(s);
    var r2 := TrimEnd(r1);
    if r2 == "" {
      assert r1[|r2|..] == r1;
      assert r1 == [];
      assert s[..|s|] == s;
    }
  }

  /** The characters of `s` that are not white space, in order. */
  function RemoveWhitespace(s: string): string {
    if s == [] then ""
    else if IsWhitespace(s[0]) then RemoveWhitespace(s[1..])
    else [s[0]] + RemoveWhitespace(s[1..])
  }

  /** `s.split(/\s+/)`: the pieces between maximal runs of white space. A
      leading or trailing run yields an empty first or last piece, and the
      empty string splits into one empty piece. */
  function Fields(s: string): (r: seq<string>)
    ensures |r| >= 1
    ensures forall k :: 0 <= k < |r| ==> NoWhitespace(r[k])
    decreases |s|
  {
    if s == [] then [""]
    else if IsWhitespace(s[0]) then [""] + Fields(TrimStart(s[1..]))
    else
      var rest := Fields(s[1..]);
      assert NoWhitespace([s[0]] + rest[0]) by {
        assert forall i :: 1 <= i < |rest[0]| + 1 ==> ([s[0]] + rest[0])[i] == rest[0][i - 1];
      }
      [[s[0]] + rest[0]] + rest[1..]
  }

  lemma {:induction false} RemoveWhitespaceOfTrimStart(s: string)
    ensures RemoveWhitespace(TrimStart(s)) == RemoveWhitespace(s)
    decreases |s|
  {
    if s != [] && IsWhitespace(s[0]) {
      RemoveWhitespaceOfTrimStart(s[1..]);
    }
  }

  /** Splitting loses nothing but the white space: the pieces, put back
      together, are the non-white-space characters of `s` in order. */
  lemma {:induction false} FieldsKeepText(s: string)
    ensures Concat(Fields(s)) == RemoveWhitespace(s)
    decreases |s|
  {
    if s == [] {
    } else if IsWhitespace(s[0]) {
      FieldsKeepText(TrimStart(s[1..]));
      RemoveWhitespaceOfTrimStart(s[1..]);
    } else {
      var rest := Fields(s[1..]);
      FieldsKeepText(s[1..]);
      assert Concat(rest) == rest[0] + Concat(rest[1..]);
      assert Fields(s) == [[s[0]] + rest[0]] + rest[1..];
      calc {
        Concat(Fields(s));
        ([s[0]] + rest[0]) + Concat(rest[1..]);
        [s[0]] + Concat(rest);
      }
    }
  }

  lemma {:induction false} ConcatEmpty(xs: seq<string>)
    requires Concat(xs) == ""
    ensures forall k :: 0 <= k < |xs| ==> xs[k] == ""
    decreases |xs|
  {
    if xs != [] {
      ConcatEmpty(xs[1..]);
      assert forall k :: 1 <= k < |xs| ==> xs[k] == xs[1..][k - 1];
    }
  }

  lemma {:induction false} RemoveWhitespaceOfBlank(s: string)
    requires IsBlank(s)
    ensures RemoveWhitespace(s) == ""
    decreases |s|
  {
    if s != [] {
      RemoveWhitespaceOfBlank(s[1..]);
    }
  }

  /** Every piece of a blank string is the empty string. */
  lemma BlankFieldsAreEmpty(s: string)
    requires IsBlank(s)
    ensures forall k :: 0 <= k < |Fields(s)| ==> Fields(s)[k] == ""
  {
    FieldsKeepText(s);
    RemoveWhitespaceOfBlank(s);
    ConcatEmpty(Fields(s));
  }

  /** A string that ends in white space splits with an empty last piece, and
      a blank string (the empty one included) contains the empty piece. */
  lemma {:induction false} FieldsTrailingBlank(s: string)
    requires s == [] || IsWhitespace(s[|s| - 1])
    ensures Fields(s)[|Fields(s)| - 1] == ""
    ensures s != [] ==> |Fields(s)| >= 2
    decreases |s|, 1
  {
    if s == [] {
    } else if IsWhitespace(s[0]) {
      FieldsTrailingBlankAfterSpace(s);
    } else {
      FieldsTrailingBlankAfterText(s);
    }
  }

  lemma {:induction false} FieldsTrailingBlankAfterSpace(s: string)
    requires s != [] && IsWhitespace(s[0]) && IsWhitespace(s[|s| - 1])
    ensures Fields(s)[|Fields(s)| - 1] == "" && |Fields(s)| >= 2
    decreases |s|, 0
  {
    var t := TrimStart(s[1..]);
    assert t == [] || IsWhitespace(t[|t| - 1]) by {
      if t != [] {
        assert t[|t| - 1] == s[1..][|s| - 1 - 1];
      }
    }
    FieldsTrailingBlank(t);
    LastOfAppend([""], Fields(t));
  }

  lemma {:induction false} FieldsTrailingBlankAfterText(s: string)
    requires s != [] && !IsWhitespace(s[0]) && IsWhitespace(s[|s| - 1])
    ensures Fields(s)[|Fields(s)| - 1] == "" && |Fields(s)| >= 2
    decreases |s|, 0
  {
    assert |s| > 1;
    var u := s[1..];
    assert u[|u| - 1] == s[|s| - 1];
    FieldsTrailingBlank(u);
    var rest := Fields(u);
    assert |rest| >= 2;
    LastOfAppend([[s[0]] + rest[0]], rest[1..]);
  }

  /** Dropping the last element of `a + b` drops it from `b`. */
  lemma InitOfAppend<T>(a: seq<T>, b: seq<T>)
    requires b != []
    ensures (a + b)[..|a + b| - 1] == a + b[..|b| - 1] && (a + b)[|a + b| - 1] == b[|b| - 1]
  {
  }

  /** Appending keeps the last element of the second part. */
  lemma LastOfAppend<T>(a: seq<T>, b: seq<T>)
    requires b != []
    ensures |a + b| == |a| + |b| && (a + b)[|a + b| - 1] == b[|b| - 1]
  {
  }

  // ---------------------------------------------------------------------
  // Decimal numbers

  predicate IsDigit(c: char) {
    '0' <= c <= '9'
  }

  predicate AllDigits(s: string) {
    forall i :: 0 <= i < |s| ==> IsDigit(s[i])
  }

  function DigitChar(d: nat): (c: char)
    requires d < 10
    ensures IsDigit(c)
  {
    ('0' as int + d) as char
  }

  /** `n.toString()` for a non-negative integer. */
  function NatToString(n: nat): (r: string)
    ensures |r| >= 1 && AllDigits(r)
    decreases n
  {
    if n < 10 then [DigitChar(n)]
    else
      var r := NatToString(n / 10) + [DigitChar(n % 10)];
      assert forall i :: 0 <= i < |r| - 1 ==> r[i] == NatToString(n / 10)[i];
      r
  }

  /** `i.toString()` for any integer. */
  function IntToString(i: int): string {
    if i < 0 then "-" + NatToString(-i) else NatToString(i)
  }

  /** `parseInt(s)` for a string of decimal digits. */
  function ParseDecimal(s: string): nat
    requires AllDigits(s)
  {
    if s == [] then 0
    else ParseDecimal(s[..|s| - 1]) * 10 + (s[|s| - 1] as int - '0' as int)
  }

  /** Parsing undoes rendering. */
  lemma {:induction false} ParseDecimalOfNatToString(n: nat)
    ensures ParseDecimal(NatToString(n)) == n
    decreases n
  {
    if n >= 10 {
      var s := NatToString(n);
      assert s[..|s| - 1] == NatToString(n / 10);
      ParseDecimalOfNatToString(n / 10);
    }
  }

  /** Distinct numbers render as distinct strings. */
  lemma NatToStringInjective(m: nat, n: nat)
    requires m != n
    ensures NatToString(m) != NatToString(n)
  {
    ParseDecimalOfNatToString(m);
    ParseDecimalOfNatToString(n);
  }
}
