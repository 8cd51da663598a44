/** Shared vocabulary: failure-carrying results, the Java exceptions the model
    distinguishes, Java's character classes, the commons-lang string helpers
    the core calls, fixed-size chunking and Java `int` parsing and wrap-around. */
module Util {

  datatype Option<T> = None | Some(value: T)

  /** The exceptions the source throws, by Java exception class. */
  datatype Error =
    | IOError(message: string)
    | ParseFailure(message: string)
    | NoSuchElement
    | IndexOutOfBounds
    | NumberFormat(text: string)
    | TagNotFound(tag: string)
    | ProcessFailed(name: string)
    | DateTime(text: string)
    | DateParse(text: string)

  datatype Result<T> = Ok(value: T) | Err(error: Error)

  datatype Outcome = Pass | Fail(error: Error)

  // ---------------------------------------------------------------- characters

  /** `\s` in a Java regular expression without UNICODE_CHARACTER_CLASS. */
  predicate IsRegexSpace(c: char) {
    c == ' ' || c == '\t' || c == '\n' || c == '\U{000B}' || c == '\U{000C}' || c == '\r'
  }

  /** The characters that `.` in a Java regular expression does not match. */
  predicate IsLineTerminator(c: char) {
    c == '\n' || c == '\r' || c == '\U{0085}' || c == '\U{2028}' || c == '\U{2029}'
  }

  /** `Character.isWhitespace`, used by `StringUtils.isBlank` and `strip`. */
  predicate IsJavaWhitespace(c: char) {
    c == ' ' || ('\t' <= c <= '\r') || ('\U{001C}' <= c <= '\U{001F}')
    || c == '\U{1680}' || ('\U{2000}' <= c <= '\U{2006}') || ('\U{2008}' <= c <= '\U{200A}')
    || c == '\U{2028}' || c == '\U{2029}' || c == '\U{205F}' || c == '\U{3000}'
  }

  /** Length of the longest prefix of `s` free of `\s` characters: what a greedy
      `\S+` (or `\S*`) takes. */
  function SpaceFreeRun(s: string): (k: nat)
    ensures k <= |s|
    ensures forall i :: 0 <= i < k ==> !IsRegexSpace(s[i])
    ensures k < |s| ==> IsRegexSpace(s[k])
  {
    if s == [] || IsRegexSpace(s[0]) then 0 else 1 + SpaceFreeRun(s[1..])
  }

  /** A space-free prefix ended by a `\s` character is the greedy run. */
  lemma {:induction false} SpaceFreeRunExact(s: string, m: nat)
    requires m < |s| && NoRegexSpace(s[..m]) && IsRegexSpace(s[m])
    ensures SpaceFreeRun(s) == m
  {
    if m > 0 {
      assert s[0] == s[..m][0];
      assert s[1..][..m - 1] == s[..m][1..];
      SpaceFreeRunExact(s[1..], m - 1);
    }
  }

  /** `s` matches `.*`: it holds no line terminator. */
  predicate NoLineTerminator(s: string) {
    forall i :: 0 <= i < |s| ==> !IsLineTerminator(s[i])
  }

  /** `s` is made of `\s` characters only. */
  predicate AllRegexSpace(s: string) {
    forall i :: 0 <= i < |s| ==> IsRegexSpace(s[i])
  }

  /** `s` holds no `\s` character. */
  predicate NoRegexSpace(s: string) {
    forall i :: 0 <= i < |s| ==> !IsRegexSpace(s[i])
  }

  predicate IsDigit(c: char) { '0' <= c <= '9' }

  predicate AllDigits(s: string) { forall i :: 0 <= i < |s| ==> IsDigit(s[i]) }

  // ---------------------------------------------------------------- strings

  /** `StringUtils.isBlank`: empty or whitespace only (a null value is modelled as ""). */
  predicate IsBlank(s: string) {
    forall i :: 0 <= i < |s| ==> IsJavaWhitespace(s[i])
  }

  /** `StringUtils.join(parts, sep)`. */
  function Join(parts: seq<string>, sep: char): (r: string)
    ensures |parts| == 1 ==> r == parts[0]
  {
    if |parts| == 0 then ""
    else if |parts| == 1 then parts[0]
    else parts[0] + [sep] + Join(parts[1..], sep)
  }

  /** `StringUtils.replaceChars(s, from, to)`. */
  function ReplaceChar(s: string, from: char, to: char): (r: string)
    ensures |r| == |s|
    ensures forall i :: 0 <= i < |s| ==> r[i] == (if s[i] == from then to else s[i])
  {
    if s == [] then [] else [if s[0] == from then to else s[0]] + ReplaceChar(s[1..], from, to)
  }

  /** `StringUtils.stripToEmpty`: leading and trailing whitespace removed (a null
      value is modelled as ""). */
  function Strip(s: string): (r: string)
    ensures |r| <= |s|
    ensures r != [] ==> !IsJavaWhitespace(r[0]) && !IsJavaWhitespace(r[|r| - 1])
    ensures IsBlank(s) <==> r == []
  {
    StripEnd(StripStart(s))
  }

  function StripStart(s: string): (r: string)
    ensures |r| <= |s| && r == s[|s| - |r|..]
    ensures r != [] ==> !IsJavaWhitespace(r[0])
    ensures IsBlank(s) <==> r == []
  {
    if s != [] && IsJavaWhitespace(s[0]) then StripStart(s[1..]) else s
  }

  function StripEnd(s: string): (r: string)
    ensures |r| <= |s| && r == s[..|r|]
    ensures r != [] ==> !IsJavaWhitespace(r[|r| - 1])
    ensures s != [] && !IsJavaWhitespace(s[0]) ==> r != [] && r[0] == s[0]
    ensures IsBlank(s) <==> r == []
  {
    if s != [] && IsJavaWhitespace(s[|s| - 1]) then StripEnd(s[..|s| - 1]) else s
  }

  /** `StringUtils.abbreviate(s, width)` for the widths used here (at least 4). */
  function Abbreviate(s: string, width: nat): (r: string)
    requires width >= 4
    ensures |r| <= width
    ensures |s| <= width ==> r == s
  {
    if |s| <= width then s else s[..width - 3] + "..."
  }

  /** Index of the first `sep` in `s`, or `|s|` when there is none. */
  function TokenEnd(s: string, sep: char): (k: nat)
    ensures k <= |s|
    ensures forall i :: 0 <= i < k ==> s[i] != sep
    ensures k < |s| ==> s[k] == sep
  {
    if s == [] || s[0] == sep then 0 else 1 + TokenEnd(s[1..], sep)
  }

  /** `StringUtils.split(s, sep)`: the maximal non-empty runs free of `sep`, in order
      (adjacent, leading and trailing separators produce no empty tokens). */
  function Split(s: string, sep: char): (r: seq<string>)
    decreases |s|
  {
    if s == [] then []
    else if s[0] == sep then Split(s[1..], sep)
    else
      var k := TokenEnd(s, sep);
      [s[..k]] + Split(s[k..], sep)
  }

  lemma {:induction false} SplitTokensNonEmpty(s: string, sep: char)
    ensures forall t :: t in Split(s, sep) ==> t != [] && sep !in t
    decreases |s|
  {
    if s == [] {
    } else if s[0] == sep {
      SplitTokensNonEmpty(s[1..], sep);
    } else {
      var k := TokenEnd(s, sep);
      SplitTokensNonEmpty(s[k..], sep);
      assert sep !in s[..k];
    }
  }

  lemma {:induction false} SplitWithoutSep(s: string, sep: char)
    requires s != [] && sep !in s
    ensures Split(s, sep) == [s]
  {
    assert s[0] != sep;
    TokenEndWithoutSep(s, sep);
    assert s[..|s|] == s;
    assert s[|s|..] == [];
  }

  lemma {:induction false} TokenEndWithoutSep(s: string, sep: char)
    requires sep !in s
    ensures TokenEnd(s, sep) == |s|
    decreases |s|
  {
    if s != [] {
      assert s[0] != sep;
      assert sep !in s[1..];
      TokenEndWithoutSep(s[1..], sep);
    }
  }

  /** Joining two separator-free, non-empty fields with the separator and splitting
      the result gives the two fields back. */
  lemma {:induction false} SplitJoinTwo(a: string, b: string, sep: char)
    requires a != [] && b != [] && sep !in a && sep !in b
    ensures Split(a + [sep] + b, sep) == [a, b]
  {
    var s := a + [sep] + b;
    assert s[0] == a[0] && s[0] != sep;
    TokenEndPrefix(a, [sep] + b, sep);
    assert s == a + ([sep] + b);
    assert TokenEnd(s, sep) == |a|;
    assert s[..|a|] == a;
    assert s[|a|..] == [sep] + b;
    assert ([sep] + b)[1..] == b;
    SplitWithoutSep(b, sep);
  }

  lemma {:induction false} TokenEndPrefix(a: string, rest: string, sep: char)
    requires sep !in a && rest != [] && rest[0] == sep
    ensures TokenEnd(a + rest, sep) == |a|
    decreases |a|
  {
    if a == [] {
      assert a + rest == rest;
    } else {
      assert (a + rest)[0] == a[0] && a[0] != sep;
      assert (a + rest)[1..] == a[1..] + rest;
      assert sep !in a[1..];
      TokenEndPrefix(a[1..], rest, sep);
    }
  }

  // ---------------------------------------------------------------- chunking

  /** The batches of at most `n` consecutive elements that a fill-then-flush loop
      with capacity `n` produces from `s`. */
  function Chunks<T>(s: seq<T>, n: nat): seq<seq<T>>
    requires n >= 1
    decreases |s|
  {
    if s == [] then []
    else if |s| <= n then [s]
    else [s[..n]] + Chunks(s[n..], n)
  }

  function Flatten<T>(ss: seq<seq<T>>): seq<T> {
    if ss == [] then [] else ss[0] + Flatten(ss[1..])
  }

  /** Every element is in exactly one batch, in order: concatenating the batches gives `s` back. */
  lemma {:induction false} ChunksFlatten<T>(s: seq<T>, n: nat)
    requires n >= 1
    ensures Flatten(Chunks(s, n)) == s
    decreases |s|
  {
    if s == [] {
    } else if |s| <= n {
      assert Flatten([s]) == s + Flatten([s][1..]);
      assert [s][1..] == [];
    } else {
      ChunksFlatten(s[n..], n);
      var cs := [s[..n]] + Chunks(s[n..], n);
      assert cs[1..] == Chunks(s[n..], n);
      assert s[..n] + s[n..] == s;
    }
  }

  /** Each batch holds 1 to `n` elements and every batch but the last is full. */
  lemma {:induction false} ChunksSizes<T>(s: seq<T>, n: nat)
    requires n >= 1
    ensures forall i :: 0 <= i < |Chunks(s, n)| ==> 1 <= |Chunks(s, n)[i]| <= n
    ensures forall i :: 0 <= i < |Chunks(s, n)| - 1 ==> |Chunks(s, n)[i]| == n
    ensures s == [] <==> Chunks(s, n) == []
    decreases |s|
  {
    if s == [] || |s| <= n {
    } else {
      ChunksSizes(s[n..], n);
      var cs := Chunks(s, n);
      assert cs == [s[..n]] + Chunks(s[n..], n);
      forall i | 1 <= i < |cs| ensures cs[i] == Chunks(s[n..], n)[i - 1] { }
    }
  }

  /** Peeling off the first batch: a full one of `n` elements from position `p`,
      or the short last one. */
  lemma ChunksAt<T>(s: seq<T>, p: nat, q: nat, n: nat)
    requires n >= 1 && p < q <= |s|
    requires q - p == n || (q == |s| && q - p <= n)
    ensures Chunks(s[p..], n) == [s[p..q]] + Chunks(s[q..], n)
    ensures q == |s| ==> Chunks(s[q..], n) == []
  {
    if |s[p..]| <= n {
      assert q == |s| && s[p..q] == s[p..];
      assert s[q..] == [];
    } else {
      assert s[p..][..n] == s[p..q];
      assert s[p..][n..] == s[q..];
    }
  }

  // ---------------------------------------------------------------- Java int

  const INT_MIN: int := -0x8000_0000
  const INT_MAX: int := 0x7FFF_FFFF

  /** Two's-complement 32-bit wrap-around of Java `int` arithmetic. */
  function Wrap32(x: int): (r: int)
    ensures INT_MIN <= r <= INT_MAX
    ensures INT_MIN <= x <= INT_MAX ==> r == x
  {
    (x - INT_MIN) % 0x1_0000_0000 + INT_MIN
  }

  /** Wrapping only moves a value by a multiple of 2^32. */
  lemma Wrap32Congruent(x: int)
    ensures (Wrap32(x) - x) % 0x1_0000_0000 == 0
  {
  }

  lemma {:induction false} Wrap32Add(x: int, y: int)
    ensures Wrap32(Wrap32(x) + y) == Wrap32(x + y)
  {
    Wrap32Congruent(x);
    var k := (Wrap32(x) - x) / 0x1_0000_0000;
    assert Wrap32(x) == x + k * 0x1_0000_0000;
    assert (Wrap32(x) + y - INT_MIN) == (x + y - INT_MIN) + k * 0x1_0000_0000;
    ModShift(x + y - INT_MIN, k);
  }

  lemma ModShift(a: int, k: int)
    ensures (a + k * 0x1_0000_0000) % 0x1_0000_0000 == a % 0x1_0000_0000
  {
  }

  /** Value of a non-empty string of ASCII decimal digits. */
  function DigitsValue(s: string): (v: nat)
    requires AllDigits(s)
    decreases |s|
  {
    if s == [] then 0 else DigitsValue(s[..|s| - 1]) * 10 + (s[|s| - 1] as int - '0' as int)
  }

  /** `Integer.valueOf(s)` (radix 10, ASCII digits): an optional sign and at least one
      digit, with the value inside the `int` range; otherwise a NumberFormatException. */
  function ParseInt(s: string): (r: Result<int>)
    ensures r.Ok? ==> INT_MIN <= r.value <= INT_MAX
    ensures r.Err? ==> r.error == NumberFormat(s)
    ensures r.Ok? <==>
      s != [] &&
      var digits := if s[0] == '-' || s[0] == '+' then s[1..] else s;
      digits != [] && AllDigits(digits) &&
      (if s[0] == '-' then DigitsValue(digits) <= -INT_MIN else DigitsValue(digits) <= INT_MAX)
    ensures r.Ok? ==>
      r.value == (if s[0] == '-' then 0 - DigitsValue(s[1..]) else if s[0] == '+' then DigitsValue(s[1..]) else DigitsValue(s))
    ensures AllDigits(s) && s != [] && DigitsValue(s) <= INT_MAX ==> r == Ok(DigitsValue(s))
  {
    var negative := |s| > 0 && s[0] == '-';
    var digits := if |s| > 0 && (s[0] == '-' || s[0] == '+') then s[1..] else s;
    if digits == [] || !AllDigits(digits) then Err(NumberFormat(s))
    else
      var d: int := DigitsValue(digits);
      var v: int := if negative then 0 - d else d;
      if INT_MIN <= v <= INT_MAX then Ok(v) else Err(NumberFormat(s))
  }

  /** Decimal rendering of a count, as `%d` formats it. */
  function NatToString(n: nat): (s: string)
    ensures s != [] && AllDigits(s)
  {
    if n < 10 then [('0' as int + n) as char]
    else NatToString(n / 10) + [('0' as int + n % 10) as char]
  }

  lemma {:induction false} NatToStringValue(n: nat)
    ensures DigitsValue(NatToString(n)) == n
  {
    if n >= 10 {
      NatToStringValue(n / 10);
      var s := NatToString(n);
      assert s[..|s| - 1] == NatToString(n / 10);
    }
  }

  /** Decimal rendering of an `int`, as `Integer.toString` gives it. */
  function IntToString(n: int): string {
    if n < 0 then "-" + NatToString(0 - n) else NatToString(n)
  }

  /** `Integer.valueOf` reads back every `int` from its decimal rendering. */
  lemma ParseIntToString(n: int)
    requires INT_MIN <= n <= INT_MAX
    ensures ParseInt(IntToString(n)) == Ok(n)
  {
    var m: nat := if n < 0 then 0 - n else n;
    NatToStringValue(m);
    var s := IntToString(n);
    if n < 0 {
      assert s[1..] == NatToString(m);
    } else {
      assert IsDigit(s[0]);
    }
  }
}
