/**
 * The JavaScript string built-ins the application relies on, over `string`
 * (a sequence of characters): `startsWith`, `endsWith`, `indexOf`/`includes`,
 * `replace` with a string pattern, `trim`, `String(n)` for integers, `join`
 * and `split` with a one-character separator.
 */
module JsString {
  import opened Wrappers

  /** `s.startsWith(p)` */
  predicate StartsWith(s: string, p: string) {
    p <= s
  }

  /** `s.endsWith(p)` */
  predicate EndsWith(s: string, p: string) {
    |p| <= |s| && s[|s| - |p|..] == p
  }

  /** `p` occurs in `s` starting at position `i`. */
  predicate OccursAt(s: string, p: string, i: nat) {
    i + |p| <= |s| && s[i..i + |p|] == p
  }

  /** `s.indexOf(p)`: the first position where `p` occurs, `None` for -1. */
  function IndexOf(s: string, p: string): (r: Option<nat>)
    ensures r.Some? ==> OccursAt(s, p, r.value)
    ensures r.Some? ==> forall j: nat :: j < r.value ==> !OccursAt(s, p, j)
    ensures r.None? ==> forall j: nat :: !OccursAt(s, p, j)
    decreases |s|
  {
    if |s| < |p| then None
    else if s[..|p|] == p then Some(0)
    else
      var tail := IndexOf(s[1..], p);
      ShiftOccurrence(s, p);
      assert !OccursAt(s, p, 0) by { assert s[0..|p|] == s[..|p|]; }
      match tail
      case None => None
      case Some(k) => Some(k + 1)
  }

  /** An occurrence in `s[1..]` is an occurrence in `s`, one position further on. */
  lemma ShiftOccurrence(s: string, p: string)
    requires |s| >= 1
    ensures forall j: nat :: OccursAt(s[1..], p, j) <==> OccursAt(s, p, j + 1)
    ensures forall j: nat :: 1 <= j ==> (OccursAt(s, p, j) <==> OccursAt(s[1..], p, j - 1))
  {
    forall j: nat
      ensures OccursAt(s[1..], p, j) <==> OccursAt(s, p, j + 1)
    {
      if j + |p| <= |s| - 1 {
        assert s[1..][j..j + |p|] == s[j + 1..j + 1 + |p|];
      }
    }
  }

  /** `s.includes(p)` */
  predicate Includes(s: string, p: string) {
    IndexOf(s, p).Some?
  }

  /** A text lacking one of the characters of `p` does not include `p`. */
  lemma AbsentCharExcludes(s: string, p: string, k: nat)
    requires k < |p| && p[k] !in s
    ensures !Includes(s, p)
  {
    forall j: nat
      ensures !OccursAt(s, p, j)
    {
      if j + |p| <= |s| {
        assert s[j..j + |p|][k] == s[j + k];
      }
    }
  }

  /** No position of `s` holds `x` immediately followed by `y`. */
  predicate PairFree(s: string, x: char, y: char) {
    forall j :: 0 <= j < |s| - 1 ==> !(s[j] == x && s[j + 1] == y)
  }

  /** Texts that are free of a pair stay so when joined, unless the pair forms at the seam. */
  lemma PairFreeConcat(a: string, b: string, x: char, y: char)
    requires PairFree(a, x, y) && PairFree(b, x, y)
    requires a == [] || b == [] || a[|a| - 1] != x || b[0] != y
    ensures PairFree(a + b, x, y)
  {
    var s := a + b;
    forall j | 0 <= j < |s| - 1
      ensures !(s[j] == x && s[j + 1] == y)
    {
      if j + 1 < |a| {
        assert s[j] == a[j] && s[j + 1] == a[j + 1];
      } else if j + 1 == |a| {
        assert s[j] == a[|a| - 1] && s[j + 1] == b[0];
      } else {
        assert s[j] == b[j - |a|] && s[j + 1] == b[j - |a| + 1];
      }
    }
  }

  /** A text in which the first two characters of `p` never stand together does not include `p`. */
  lemma AbsentPairExcludes(s: string, p: string)
    requires |p| >= 2 && PairFree(s, p[0], p[1])
    ensures !Includes(s, p)
  {
    forall j: nat
      ensures !OccursAt(s, p, j)
    {
      if j + |p| <= |s| {
        assert s[j..j + |p|][0] == s[j] && s[j..j + |p|][1] == s[j + 1];
      }
    }
  }

  /** `s.replace(p, '')`: the first occurrence of `p` removed, `s` itself when there is none. */
  function RemoveFirst(s: string, p: string): (r: string)
    ensures !Includes(s, p) ==> r == s
    ensures Includes(s, p) ==>
      var i := IndexOf(s, p).value;
      |r| == |s| - |p| && i <= |r| && r[..i] + p + r[i..] == s
  {
    match IndexOf(s, p)
    case None => s
    case Some(i) => s[..i] + s[i + |p|..]
  }

  /** The characters `String.prototype.trim` removes: white space and line terminators. */
  predicate IsWhitespace(c: char) {
    || c == '\t' || c == '\n' || c == '\U{000B}' || c == '\U{000C}' || c == '\r' || c == ' '
    || c == '\U{00A0}' || c == '\U{1680}' || ('\U{2000}' <= c <= '\U{200A}')
    || c == '\U{2028}' || c == '\U{2029}' || c == '\U{202F}' || c == '\U{205F}'
    || c == '\U{3000}' || c == '\U{FEFF}'
  }

  /** `s` with its leading white space removed. */
  function TrimStart(s: string): (r: string)
    ensures |r| <= |s| && r == s[|s| - |r|..]
    ensures forall i :: 0 <= i < |s| - |r| ==> IsWhitespace(s[i])
    ensures r == [] || !IsWhitespace(r[0])
    decreases |s|
  {
    if s != [] && IsWhitespace(s[0]) then TrimStart(s[1..]) else s
  }

  /** `s` with its trailing white space removed. */
  function TrimEnd(s: string): (r: string)
    ensures |r| <= |s| && r == s[..|r|]
    ensures forall i :: |r| <= i < |s| ==> IsWhitespace(s[i])
    ensures r == [] || !IsWhitespace(r[|r| - 1])
    decreases |s|
  {
    if s != [] && IsWhitespace(s[|s| - 1]) then TrimEnd(s[..|s| - 1]) else s
  }

  /**
   * `s.trim()`: the piece of `s` left after its leading and trailing white
   * space, which itself neither starts nor ends with white space.
   */
  function Trim(s: string): (r: string)
    ensures r == [] || (!IsWhitespace(r[0]) && !IsWhitespace(r[|r| - 1]))
    ensures var k := |s| - |TrimStart(s)|;
      && k + |r| <= |s| && r == s[k..k + |r|]
      && (forall i :: 0 <= i < k ==> IsWhitespace(s[i]))
      && (forall i :: k + |r| <= i < |s| ==> IsWhitespace(s[i]))
  {
    TrimEnd(TrimStart(s))
  }

  /** `s.trim().length === 0` holds exactly when every character of `s` is white space. */
  lemma TrimEmptyIff(s: string)
    ensures Trim(s) == [] <==> forall i :: 0 <= i < |s| ==> IsWhitespace(s[i])
  {
    TrimStartOfBlank(s);
    TrimEndKeepsNonBlank(TrimStart(s));
  }

  lemma {:induction false} TrimStartOfBlank(s: string)
    ensures (forall i :: 0 <= i < |s| ==> IsWhitespace(s[i])) ==> TrimStart(s) == []
    decreases |s|
  {
    if s != [] {
      TrimStartOfBlank(s[1..]);
      assert forall i :: 0 <= i < |s| - 1 ==> s[1..][i] == s[i + 1];
    }
  }

  lemma TrimEndKeepsNonBlank(s: string)
    ensures s != [] && !IsWhitespace(s[0]) ==> TrimEnd(s) != []
  {
  }

  /** The decimal digit characters. */
  predicate IsDigit(c: char) {
    '0' <= c <= '9'
  }

  function DigitChar(d: nat): (c: char)
    requires d < 10
    ensures IsDigit(c)
  {
    ('0' as int + d) as char
  }

  function DigitValue(c: char): (d: nat)
    requires IsDigit(c)
    ensures d < 10 && DigitChar(d) == c
  {
    c as int - '0' as int
  }

  /** `String(n)` for a non-negative integer: its decimal digits, without leading zeros. */
  function NatToString(n: nat): (r: string)
    ensures |r| >= 1 && (forall i :: 0 <= i < |r| ==> IsDigit(r[i]))
    ensures |r| > 1 ==> r[0] != '0'
    decreases n
  {
    if n < 10 then [DigitChar(n)] else NatToString(n / 10) + [DigitChar(n % 10)]
  }

  /** The number a string of decimal digits denotes. */
  function DecimalValue(s: string): nat
    requires forall i :: 0 <= i < |s| ==> IsDigit(s[i])
    decreases |s|
  {
    if s == [] then 0 else DecimalValue(s[..|s| - 1]) * 10 + DigitValue(s[|s| - 1])
  }

  /** Reading back the digits `String(n)` writes gives `n`. */
  lemma {:induction false} NatToStringRoundTrip(n: nat)
    ensures DecimalValue(NatToString(n)) == n
    decreases n
  {
    var r := NatToString(n);
    if n >= 10 {
      NatToStringRoundTrip(n / 10);
      assert r[..|r| - 1] == NatToString(n / 10);
    }
  }

  /** Distinct numbers are written as distinct strings. */
  lemma NatToStringInjective(a: nat, b: nat)
    ensures NatToString(a) == NatToString(b) ==> a == b
  {
    NatToStringRoundTrip(a);
    NatToStringRoundTrip(b);
  }

  /** `String(i)` for any integer: a minus sign before the digits of a negative one. */
  function IntToString(i: int): (r: string)
    ensures |r| >= 1 && (r[0] == '-' <==> i < 0)
    ensures i >= 0 ==> (forall k :: 0 <= k < |r| ==> IsDigit(r[k])) && DecimalValue(r) == i
    ensures i < 0 ==> (forall k :: 1 <= k < |r| ==> IsDigit(r[k])) && DecimalValue(r[1..]) == -i
  {
    if i < 0 then
      NatToStringRoundTrip(-i);
      assert ("-" + NatToString(-i))[1..] == NatToString(-i);
      "-" + NatToString(-i)
    else
      NatToStringRoundTrip(i);
      NatToString(i)
  }

  /** `parts.join(sep)` */
  function Join(parts: seq<string>, sep: string): (r: string)
    ensures parts == [] ==> r == ""
    ensures parts != [] ==> StartsWith(r, parts[0]) && EndsWith(r, parts[|parts| - 1])
    decreases |parts|
  {
    if parts == [] then ""
    else if |parts| == 1 then parts[0]
    else parts[0] + sep + Join(parts[1..], sep)
  }

  /** `s.split(sep)` for a one-character separator. */
  function Split(s: string, sep: char): (r: seq<string>)
    ensures |r| >= 1
    decreases |s|
  {
    if s == [] then [""]
    else
      var rest := Split(s[1..], sep);
      if s[0] == sep then [""] + rest else [[s[0]] + rest[0]] + rest[1..]
  }

  /** Text without the separator glues onto the first piece of what follows it. */
  lemma {:induction false} SplitPrefix(a: string, t: string, sep: char)
    requires sep !in a
    ensures Split(a + t, sep) == [a + Split(t, sep)[0]] + Split(t, sep)[1..]
    decreases |a|
  {
    if a != [] {
      var tail := Split(t, sep);
      SplitPrefix(a[1..], t, sep);
      assert (a + t)[1..] == a[1..] + t;
      var rest := Split(a[1..] + t, sep);
      assert rest == [a[1..] + tail[0]] + tail[1..];
      assert (a + t)[0] == a[0] != sep;
      assert Split(a + t, sep) == [[a[0]] + rest[0]] + rest[1..];
      assert rest[0] == a[1..] + tail[0];
      assert rest[1..] == tail[1..];
      assert [a[0]] + (a[1..] + tail[0]) == a + tail[0];
    } else {
      var tail := Split(t, sep);
      assert a + t == t;
      assert a + tail[0] == tail[0];
      assert [tail[0]] + tail[1..] == tail;
    }
  }

  /** A separator right after separator-free text ends the first piece there. */
  lemma SplitAtSeparator(a: string, rest: string, sep: char)
    requires sep !in a
    ensures Split(a + ([sep] + rest), sep) == [a] + Split(rest, sep)
  {
    SplitPrefix(a, [sep] + rest, sep);
    assert ([sep] + rest)[1..] == rest;
    var after := Split([sep] + rest, sep);
    assert after == [""] + Split(rest, sep);
    assert after[0] == "" && after[1..] == Split(rest, sep);
    assert a + after[0] == a;
  }

  /** Splitting joined pieces that do not contain the separator gives the pieces back. */
  lemma {:induction false} SplitJoin(parts: seq<string>, sep: char)
    requires |parts| >= 1
    requires forall k :: 0 <= k < |parts| ==> sep !in parts[k]
    ensures Split(Join(parts, [sep]), sep) == parts
    decreases |parts|
  {
    if |parts| == 1 {
      SplitPrefix(parts[0], "", sep);
      assert Split("", sep) == [""];
      assert parts[0] + "" == parts[0];
      assert Join(parts, [sep]) == parts[0] + "";
    } else {
      var rest := Join(parts[1..], [sep]);
      SplitJoin(parts[1..], sep);
      assert Join(parts, [sep]) == parts[0] + ([sep] + rest);
      SplitAtSeparator(parts[0], rest, sep);
      assert [parts[0]] + parts[1..] == parts;
    }
  }
}
