/**
  The .NET string operations the core relies on, written out over `string`
  (a sequence of UTF-16 code units, modelled as `char`): trimming, prefix and
  suffix tests, splitting on a separator, joining, character replacement,
  and the decimal conversions of `int.TryParse` and `int.ToString`.
*/
module Text {
  import opened Wrappers

  /** `char.IsWhiteSpace`: the members of the Unicode White_Space property in the BMP. */
  predicate IsWhiteSpace(c: char) {
    || c == ' '
    || ('\t' <= c <= '\r')
    || c == '\U{85}'
    || c == '\U{A0}'
    || c == '\U{1680}'
    || ('\U{2000}' <= c <= '\U{200A}')
    || c == '\U{2028}'
    || c == '\U{2029}'
    || c == '\U{202F}'
    || c == '\U{205F}'
    || c == '\U{3000}'
  }

  /** `string.IsNullOrWhiteSpace` (a null string is not representable here). */
  predicate IsBlank(s: string) {
    forall k :: 0 <= k < |s| ==> IsWhiteSpace(s[k])
  }

  /** `TrimStart()`: drops the leading white space. */
  function TrimStart(s: string): (r: string)
    ensures |r| <= |s|
    ensures r == [] || !IsWhiteSpace(r[0])
  {
    if s != [] && IsWhiteSpace(s[0]) then TrimStart(s[1..]) else s
  }

  /** `TrimEnd()`: drops the trailing white space. */
  function TrimEnd(s: string): (r: string)
    ensures |r| <= |s|
    ensures r == [] || !IsWhiteSpace(r[|r| - 1])
  {
    if s != [] && IsWhiteSpace(s[|s| - 1]) then TrimEnd(s[..|s| - 1]) else s
  }

  /** `string.Trim()`: both ends, white space only. */
  function Trim(s: string): (r: string)
    ensures |r| <= |s|
    ensures r == [] || (!IsWhiteSpace(r[0]) && !IsWhiteSpace(r[|r| - 1]))
  {
    TrimEndKeepsStart(TrimStart(s));
    TrimEnd(TrimStart(s))
  }

  /** What `TrimStart` removes is white space, and what it keeps is a suffix of the input. */
  lemma {:induction false} TrimStartFacts(s: string)
    ensures TrimStart(s) == s[|s| - |TrimStart(s)|..]
    ensures forall k :: 0 <= k < |s| - |TrimStart(s)| ==> IsWhiteSpace(s[k])
    decreases |s|
  {
    if s != [] && IsWhiteSpace(s[0]) {
      TrimStartFacts(s[1..]);
    }
  }

  /** What `TrimEnd` removes is white space, and what it keeps is a prefix of the input. */
  lemma {:induction false} TrimEndFacts(s: string)
    ensures TrimEnd(s) == s[..|TrimEnd(s)|]
    ensures forall k :: |TrimEnd(s)| <= k < |s| ==> IsWhiteSpace(s[k])
    decreases |s|
  {
    if s != [] && IsWhiteSpace(s[|s| - 1]) {
      TrimEndFacts(s[..|s| - 1]);
    }
  }

  /** `TrimEnd` leaves a first character that is not white space where it was. */
  lemma TrimEndKeepsStart(s: string)
    ensures s != [] && !IsWhiteSpace(s[0]) ==> TrimEnd(s) != [] && TrimEnd(s)[0] == s[0]
  {
    TrimEndFacts(s);
  }

  /** `Trim` gives the empty string exactly for blank input. */
  lemma TrimEmptyIffBlank(s: string)
    ensures Trim(s) == [] <==> IsBlank(s)
  {
    TrimStartFacts(s);
    TrimEndFacts(TrimStart(s));
    var t := TrimStart(s);
    if t != [] {
      assert t[0] == s[|s| - |t|];
      TrimEndKeepsStart(t);
    }
  }

  /** Trimming is idempotent. */
  lemma TrimIdempotent(s: string)
    ensures Trim(Trim(s)) == Trim(s)
  {
    var r := Trim(s);
    if r != [] {
      assert TrimStart(r) == r;
      assert TrimEnd(r) == r;
    }
  }

  lemma SliceOfSuffix(s: string, i: nat, n: nat)
    requires i + n <= |s|
    ensures s[i..][..n] == s[i..i + n]
  {
  }

  /** The trimmed string is a contiguous piece `s[i..j]` of the input. */
  lemma TrimIsSlice(s: string) returns (i: nat, j: nat)
    ensures i <= j <= |s| && Trim(s) == s[i..j]
  {
    var t := TrimStart(s);
    var r := TrimEnd(t);
    TrimStartFacts(s);
    TrimEndFacts(t);
    i, j := |s| - |t|, |s| - |t| + |r|;
    assert t == s[i..];
    assert r == t[..|r|];
    SliceOfSuffix(s, i, |r|);
  }

  /** `TrimStart(c)`: drops the leading copies of `c`. */
  function TrimStartChar(s: string, c: char): (r: string)
    ensures |r| <= |s|
    ensures r == [] || r[0] != c
  {
    if s != [] && s[0] == c then TrimStartChar(s[1..], c) else s
  }

  /** `TrimEnd(c)`: drops the trailing copies of `c`. */
  function TrimEndChar(s: string, c: char): (r: string)
    ensures |r| <= |s|
    ensures r == [] || r[|r| - 1] != c
  {
    if s != [] && s[|s| - 1] == c then TrimEndChar(s[..|s| - 1], c) else s
  }

  /** `Trim(c)`: both ends. */
  function TrimChar(s: string, c: char): string {
    TrimEndChar(TrimStartChar(s, c), c)
  }

  /** What `TrimStart(c)` removes is copies of `c`, and what it keeps is a suffix of the input. */
  lemma {:induction false} TrimStartCharFacts(s: string, c: char)
    ensures TrimStartChar(s, c) == s[|s| - |TrimStartChar(s, c)|..]
    ensures forall k :: 0 <= k < |s| - |TrimStartChar(s, c)| ==> s[k] == c
    decreases |s|
  {
    if s != [] && s[0] == c {
      TrimStartCharFacts(s[1..], c);
    }
  }

  /** What `TrimEnd(c)` removes is copies of `c`, and what it keeps is a prefix of the input. */
  lemma {:induction false} TrimEndCharFacts(s: string, c: char)
    ensures TrimEndChar(s, c) == s[..|TrimEndChar(s, c)|]
    ensures forall k :: |TrimEndChar(s, c)| <= k < |s| ==> s[k] == c
    decreases |s|
  {
    if s != [] && s[|s| - 1] == c {
      TrimEndCharFacts(s[..|s| - 1], c);
    }
  }

  /** A string without `c` is left alone by `Trim(c)`. */
  lemma TrimCharAbsent(s: string, c: char)
    requires c !in s
    ensures TrimChar(s, c) == s
  {
  }

  /** `s.EndsWith(suffix, StringComparison.OrdinalIgnoreCase)` for an ASCII suffix. */
  predicate EndsWithIgnoreCase(s: string, suffix: string) {
    |suffix| <= |s| &&
    forall k :: 0 <= k < |suffix| ==> AsciiLower(s[|s| - |suffix| + k]) == AsciiLower(suffix[k])
  }

  function AsciiLower(c: char): char {
    if 'A' <= c <= 'Z' then (c as int + 32) as char else c
  }

  /** The position of the first `c` in `s`, as `IndexOf` returns it. */
  function IndexOf(s: string, c: char): (r: Option<nat>)
    ensures r.None? <==> c !in s
    ensures r.Some? ==> r.value < |s| && s[r.value] == c && c !in s[..r.value]
  {
    if s == [] then None
    else if s[0] == c then Some(0)
    else match IndexOf(s[1..], c)
      case None => None
      case Some(i) => assert s[1..][..i] == s[1..i + 1]; Some(i + 1)
  }

  /** `string.Join(sep, parts)`. */
  function Join(parts: seq<string>, sep: char): string {
    if parts == [] then []
    else if |parts| == 1 then parts[0]
    else Join(parts[..|parts| - 1], sep) + [sep] + parts[|parts| - 1]
  }

  lemma {:induction false} JoinCons(head: string, rest: seq<string>, sep: char)
    requires rest != []
    ensures Join([head] + rest, sep) == head + [sep] + Join(rest, sep)
    decreases |rest|
  {
    if |rest| > 1 {
      var ps := [head] + rest;
      assert ps[..|ps| - 1] == [head] + rest[..|rest| - 1];
      JoinCons(head, rest[..|rest| - 1], sep);
    } else {
      assert [head] + rest == [head, rest[0]];
    }
  }

  /** `s.Split(sep)`: every separator cuts, so there is one more piece than separators. */
  function SplitOn(s: string, sep: char): (parts: seq<string>)
    ensures |parts| == 1 + multiset(s)[sep]
    ensures forall k :: 0 <= k < |parts| ==> sep !in parts[k]
    ensures Join(parts, sep) == s
    decreases |s|
  {
    match IndexOf(s, sep)
    case None => [s]
    case Some(i) =>
      var rest := SplitOn(s[i + 1..], sep);
      JoinCons(s[..i], rest, sep);
      CutAtFirst(s, sep, i);
      [s[..i]] + rest
  }

  /** Cutting `s` at the first occurrence of `c`. */
  lemma CutAtFirst(s: string, c: char, i: nat)
    requires i < |s| && s[i] == c && c !in s[..i]
    ensures s == s[..i] + [c] + s[i + 1..]
    ensures multiset(s)[c] == 1 + multiset(s[i + 1..])[c]
  {
    assert s == s[..i] + [c] + s[i + 1..];
    assert multiset(s) == multiset(s[..i]) + multiset([c]) + multiset(s[i + 1..]);
    assert multiset(s[..i])[c] == 0;
  }

  /** Splitting undoes joining when no piece holds the separator. */
  lemma {:induction false} SplitJoin(parts: seq<string>, sep: char)
    requires parts != []
    requires forall k :: 0 <= k < |parts| ==> sep !in parts[k]
    ensures SplitOn(Join(parts, sep), sep) == parts
    decreases |parts|
  {
    if |parts| == 1 {
      assert IndexOf(parts[0], sep) == None;
    } else {
      var rest := parts[1..];
      assert parts == [parts[0]] + rest;
      JoinCons(parts[0], rest, sep);
      var s := Join(parts, sep);
      assert s == parts[0] + [sep] + Join(rest, sep);
      assert s[|parts[0]|] == sep;
      assert s[..|parts[0]|] == parts[0];
      assert IndexOf(s, sep) == Some(|parts[0]|);
      assert s[|parts[0]| + 1..] == Join(rest, sep);
      SplitJoin(rest, sep);
    }
  }

  /** `s.Replace(from, to)` for single characters. */
  function ReplaceChar(s: string, from: char, to: char): (r: string)
    ensures |r| == |s|
    ensures forall k :: 0 <= k < |s| ==> r[k] == if s[k] == from then to else s[k]
  {
    seq(|s|, k requires 0 <= k < |s| => if s[k] == from then to else s[k])
  }

  /** Replacing back restores the text when the target character did not occur in it. */
  lemma ReplaceCharBack(s: string, from: char, to: char)
    requires to !in s
    ensures ReplaceChar(ReplaceChar(s, from, to), to, from) == s
  {
    var r := ReplaceChar(ReplaceChar(s, from, to), to, from);
    assert forall k :: 0 <= k < |s| ==> r[k] == s[k];
  }

  /** The text with every occurrence of `c` removed. */
  function RemoveChar(s: string, c: char): (r: string)
    ensures c !in r
    ensures multiset(r)[c] == 0
    ensures forall d :: d != c ==> multiset(r)[d] == multiset(s)[d]
  {
    if s == [] then []
    else
      var front := RemoveChar(s[..|s| - 1], c);
      assert s == s[..|s| - 1] + [s[|s| - 1]];
      if s[|s| - 1] == c then front else front + [s[|s| - 1]]
  }

  // Decimal numbers, as int.TryParse (NumberStyles.Integer) and int.ToString accept and print them.

  const Int32Min: int := -0x8000_0000
  const Int32Max: int := 0x7FFF_FFFF

  predicate IsDigit(c: char) { '0' <= c <= '9' }

  predicate AllDigits(s: string) { forall k :: 0 <= k < |s| ==> IsDigit(s[k]) }

  function DecimalValue(s: string): nat
    requires AllDigits(s)
  {
    if s == [] then 0 else 10 * DecimalValue(s[..|s| - 1]) + (s[|s| - 1] as int - '0' as int)
  }

  function DecimalString(n: nat): (r: string)
    ensures r != [] && AllDigits(r)
  {
    if n < 10 then [('0' as int + n) as char]
    else DecimalString(n / 10) + [('0' as int + n % 10) as char]
  }

  lemma {:induction false} DecimalRoundTrip(n: nat)
    ensures DecimalValue(DecimalString(n)) == n
  {
    if n >= 10 {
      var s := DecimalString(n);
      assert s[..|s| - 1] == DecimalString(n / 10);
      DecimalRoundTrip(n / 10);
    }
  }

  /** `int.ToString()`: an optional minus sign and the decimal digits. */
  function IntToString(n: int): (r: string)
    ensures r != []
  {
    if n < 0 then "-" + DecimalString(-n) else DecimalString(n)
  }

  /**
    `int.TryParse(s, out v)` on an already trimmed string: an optional sign,
    at least one decimal digit, and a value that fits in 32 bits.
  */
  function ParseInt32(s: string): (r: Option<int>)
    ensures r.Some? ==> Int32Min <= r.value <= Int32Max
    ensures r.Some? ==> s != [] && (IsDigit(s[0]) || s[0] == '-' || s[0] == '+')
  {
    if s == [] then None
    else
      var negative := s[0] == '-';
      var digits := if s[0] == '-' || s[0] == '+' then s[1..] else s;
      if digits == [] || !AllDigits(digits) then None
      else
        var magnitude: int := DecimalValue(digits);
        var v := if negative then -magnitude else magnitude;
        if Int32Min <= v <= Int32Max then Some(v) else None
  }

  /** Printing an `int` and parsing it back gives the same number. */
  lemma ParseIntToString(n: int)
    requires Int32Min <= n <= Int32Max
    ensures ParseInt32(IntToString(n)) == Some(n)
  {
    var s := IntToString(n);
    if n < 0 {
      var d := DecimalString(-n);
      DecimalRoundTrip(-n);
      assert s == "-" + d && s[0] == '-' && s[1..] == d;
    } else {
      var d := DecimalString(n);
      DecimalRoundTrip(n);
      assert s == d && IsDigit(s[0]);
    }
  }

  // Path.Combine, for a platform whose directory separator is `sep` ('/' is always
  // accepted as an alternative separator).

  predicate IsSeparator(c: char, sep: char) { c == sep || c == '/' }

  /** The values `Path.DirectorySeparatorChar` takes: `/`, or `\\` on Windows. */
  predicate ValidSeparator(sep: char) {
    sep == '/' || sep == '\\'
  }

  /** `Path.Combine(first, second)`. */
  function Combine(first: string, second: string, sep: char): (r: string)
    ensures second != [] && !IsSeparator(second[0], sep) && first != [] && !IsSeparator(first[|first| - 1], sep) ==>
      r == first + [sep] + second
  {
    if second == [] then first
    else if first == [] then second
    else if IsSeparator(second[0], sep) then second
    else if IsSeparator(first[|first| - 1], sep) then first + second
    else first + [sep] + second
  }
}
