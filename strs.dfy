/** The pieces of Go's `strconv` and `strings` packages that the device-injection
    pipeline relies on, over `string` (a sequence of Unicode scalar values). */
module Strs {
  import opened Wrappers

  predicate IsDigit(c: char) { '0' <= c <= '9' }

  predicate AllDigits(s: string) { forall k :: 0 <= k < |s| ==> IsDigit(s[k]) }

  function DigitChar(d: nat): (c: char)
    requires d < 10
    ensures IsDigit(c) && (c as int) - ('0' as int) == d
  {
    (('0' as int) + d) as char
  }

  function DigitValue(c: char): nat
    requires IsDigit(c)
  {
    (c as int) - ('0' as int)
  }

  /** The shortest decimal numeral of `n`. */
  function NatToDecimal(n: nat): (s: string)
    ensures |s| > 0 && AllDigits(s)
    ensures s[0] == '0' ==> s == "0"
    decreases n
  {
    if n < 10 then [DigitChar(n)] else NatToDecimal(n / 10) + [DigitChar(n % 10)]
  }

  /** The value of a decimal numeral (leading zeros allowed). */
  function DecimalValue(s: string): nat
    requires AllDigits(s)
  {
    if |s| == 0 then 0 else DecimalValue(s[..|s| - 1]) * 10 + DigitValue(s[|s| - 1])
  }

  lemma {:induction false} DecimalRoundTrip(n: nat)
    ensures DecimalValue(NatToDecimal(n)) == n
    decreases n
  {
    if n >= 10 {
      DecimalRoundTrip(n / 10);
      var s := NatToDecimal(n);
      assert s[..|s| - 1] == NatToDecimal(n / 10);
    }
  }

  /** `strconv.Itoa` and `fmt.Sprintf("%d", i)`. */
  function Itoa(i: int): (s: string)
    ensures |s| > 0
    ensures i >= 0 <==> IsDigit(s[0])
    ensures i < 0 <==> s[0] == '-'
  {
    if i < 0 then "-" + NatToDecimal(-i) else NatToDecimal(i)
  }

  /** Decimal formatting loses nothing: distinct integers have distinct numerals. */
  lemma ItoaInjective(a: int, b: int)
    requires Itoa(a) == Itoa(b)
    ensures a == b
  {
    if a >= 0 {
      DecimalRoundTrip(a);
      DecimalRoundTrip(b);
    } else {
      assert Itoa(a)[1..] == NatToDecimal(-a);
      assert Itoa(b)[1..] == NatToDecimal(-b);
      DecimalRoundTrip(-a);
      DecimalRoundTrip(-b);
    }
  }

  const MinInt64: int := -0x8000_0000_0000_0000
  const MaxInt64: int := 0x7fff_ffff_ffff_ffff

  /** `strconv.Atoi` on a 64-bit platform: an optional sign, then one or more
      decimal digits and nothing else, within the range of `int`. */
  function Atoi(s: string): (r: Result<int>)
    ensures r.Ok? ==> MinInt64 <= r.value <= MaxInt64
    ensures r.Ok? ==> |s| > 0 && AllDigits(if s[0] == '+' || s[0] == '-' then s[1..] else s)
  {
    var signed := |s| > 0 && (s[0] == '+' || s[0] == '-');
    var digits := if signed then s[1..] else s;
    if |digits| == 0 || !AllDigits(digits) then Err("invalid syntax")
    else
      var v: int := if signed && s[0] == '-' then 0 - (DecimalValue(digits) as int) else DecimalValue(digits);
      if v < MinInt64 || MaxInt64 < v then Err("value out of range") else Ok(v)
  }

  /** `Atoi` reads back what `Itoa` writes, for every `int`. */
  lemma AtoiItoa(i: int)
    requires MinInt64 <= i <= MaxInt64
    ensures Atoi(Itoa(i)) == Ok(i)
  {
    var s := Itoa(i);
    if i < 0 {
      var d := NatToDecimal(-i);
      assert s == "-" + d;
      assert s[0] == '-' && s[1..] == d;
      DecimalRoundTrip(-i);
    } else {
      var d := NatToDecimal(i);
      assert s == d;
      DecimalRoundTrip(i);
      assert s[0] != '+' && s[0] != '-';
    }
  }

  /** Go `uint(i)` on a 64-bit platform: two's-complement wrap-around. */
  function ToUint(i: int): (u: nat)
    requires MinInt64 <= i <= MaxInt64
    ensures u < 0x1_0000_0000_0000_0000
    ensures i >= 0 ==> u == i
    ensures i < 0 ==> u > MaxInt64
  {
    if i < 0 then i + 0x1_0000_0000_0000_0000 else i
  }

  /** `unicode.IsSpace`. */
  predicate IsSpace(c: char)
  {
    var n := c as int;
    n == 0x20 || (0x09 <= n <= 0x0d) || n == 0x85 || n == 0xa0 || n == 0x1680
    || (0x2000 <= n <= 0x200a) || n == 0x2028 || n == 0x2029 || n == 0x202f
    || n == 0x205f || n == 0x3000
  }

  /** Membership in the cut set `" \t\n\r"`. */
  predicate InCutSet(c: char) { c == ' ' || c == '\t' || c == '\n' || c == '\r' }

  /** The length of the longest prefix of `s` whose characters all satisfy `cut`. */
  function LeadingCount(s: string, cut: char -> bool): (n: nat)
    ensures n <= |s| && (n == |s| || !cut(s[n]))
    ensures forall k :: 0 <= k < n ==> cut(s[k])
  {
    if |s| > 0 && cut(s[0]) then
      var n := 1 + LeadingCount(s[1..], cut);
      assert forall k :: 1 <= k < n ==> s[k] == s[1..][k - 1];
      n
    else 0
  }

  /** The length of the longest prefix of `s` to keep before a suffix whose
      characters all satisfy `cut`. */
  function KeptCount(s: string, cut: char -> bool): (n: nat)
    ensures n <= |s| && (n == 0 || !cut(s[n - 1]))
    ensures forall k :: n <= k < |s| ==> cut(s[k])
  {
    if |s| > 0 && cut(s[|s| - 1]) then
      var n := KeptCount(s[..|s| - 1], cut);
      assert forall k :: n <= k < |s| - 1 ==> s[k] == s[..|s| - 1][k];
      n
    else |s|
  }

  /** `r` is the slice `s[i..]` of length `|r|`, and everything around it satisfies `cut`. */
  predicate TrimmedAt(r: string, s: string, i: int, cut: char -> bool)
  {
    && 0 <= i <= |s| - |r| && r == s[i..i + |r|]
    && (forall k :: 0 <= k < i ==> cut(s[k]))
    && (forall k :: i + |r| <= k < |s| ==> cut(s[k]))
  }

  /** A trimmed string is a slice of its input that starts and ends with a kept
      character, and everything cut off on either side satisfies `cut`. */
  ghost predicate IsTrimOf(r: string, s: string, cut: char -> bool)
  {
    && (r == [] || (!cut(r[0]) && !cut(r[|r| - 1])))
    && exists i :: TrimmedAt(r, s, i, cut)
  }

  /** `strings.Trim` with a cut predicate. */
  function Trim(s: string, cut: char -> bool): (r: string)
    ensures IsTrimOf(r, s, cut)
  {
    var l := s[LeadingCount(s, cut)..];
    TrimIsTrim(s, cut);
    l[..KeptCount(l, cut)]
  }

  lemma TrimIsTrim(s: string, cut: char -> bool)
    ensures var l := s[LeadingCount(s, cut)..]; IsTrimOf(l[..KeptCount(l, cut)], s, cut)
  {
    var i := LeadingCount(s, cut);
    var l := s[i..];
    var n := KeptCount(l, cut);
    var r := l[..n];
    assert r == s[i..i + n];
    assert forall k :: i + n <= k < |s| ==> s[k] == l[k - i];
    assert TrimmedAt(r, s, i, cut);
  }

  /** `strings.TrimSpace`. */
  function TrimSpace(s: string): (r: string)
    ensures IsTrimOf(r, s, IsSpace)
  {
    Trim(s, IsSpace)
  }

  /** The index of the first `c` in `s`. */
  function IndexOf(s: string, c: char): (i: nat)
    requires c in s
    ensures i < |s| && s[i] == c && c !in s[..i]
  {
    if s[0] == c then 0 else 1 + IndexOf(s[1..], c)
  }

  /** `strings.Split(s, [sep])`: the pieces between the separators, so `""` gives `[""]`. */
  function Split(s: string, sep: char): (parts: seq<string>)
    ensures |parts| >= 1
    ensures forall k :: 0 <= k < |parts| ==> sep !in parts[k]
    decreases |s|
  {
    if sep in s then
      var i := IndexOf(s, sep);
      [s[..i]] + Split(s[i + 1..], sep)
    else [s]
  }

  /** Splitting at a known first separator. */
  lemma SplitAtFirst(s: string, sep: char, i: nat)
    requires i < |s| && s[i] == sep && sep !in s[..i]
    ensures Split(s, sep) == [s[..i]] + Split(s[i + 1..], sep)
  {
    var j := IndexOf(s, sep);
    assert j == i;
  }

  /** `strings.Join(parts, [sep])`. */
  function JoinWith(parts: seq<string>, sep: char): string
  {
    if |parts| == 0 then ""
    else if |parts| == 1 then parts[0]
    else parts[0] + [sep] + JoinWith(parts[1..], sep)
  }

  /** Splitting loses nothing: joining the pieces again gives the input back. */
  lemma {:induction false} SplitJoin(s: string, sep: char)
    ensures JoinWith(Split(s, sep), sep) == s
    decreases |s|
  {
    if sep in s {
      var i := IndexOf(s, sep);
      var parts, rest := Split(s, sep), Split(s[i + 1..], sep);
      assert parts == [s[..i]] + rest;
      assert parts[0] == s[..i] && parts[1..] == rest && |parts| >= 2;
      assert JoinWith(parts, sep) == s[..i] + [sep] + JoinWith(rest, sep);
      SplitJoin(s[i + 1..], sep);
      assert s == s[..i] + [sep] + s[i + 1..];
    }
  }

  /** `strings.SplitN(e, "=", 2)` read as a key and a value: the key is the text
      before the first `=`, the value everything after it. */
  function SplitKeyValue(e: string): (r: Option<(string, string)>)
    ensures r.None? <==> '=' !in e
    ensures r.Some? ==> r.value.0 + "=" + r.value.1 == e && '=' !in r.value.0
  {
    if '=' in e then
      var i := IndexOf(e, '=');
      assert e == e[..i] + "=" + e[i + 1..];
      Some((e[..i], e[i + 1..]))
    else None
  }

  /** A key without `=` and any value come back out of their `KEY=VALUE` entry. */
  lemma SplitKeyValueOfEntry(k: string, v: string)
    requires '=' !in k
    ensures SplitKeyValue(k + "=" + v) == Some((k, v))
  {
    var e := k + "=" + v;
    var r := SplitKeyValue(e);
    assert e[|k|] == '=';
    assert r.Some?;
    var (k', v') := r.value;
    assert k' == e[..|k|] == k;
    assert v' == e[|k| + 1..] == v;
  }
}
