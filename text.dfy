/** The pieces of Go's `strings` and `strconv` packages that the core relies
    on: `unicode.IsSpace` and `strings.TrimSpace`, byte length of a UTF-8
    string, `strings.Index`/`HasPrefix`, `strconv.Itoa` and
    `strconv.ParseInt(s, 10, 64)`, and the ordering of Go's `<` on strings.

    A Go string is modelled as the sequence of Unicode scalar values its
    (valid) UTF-8 bytes decode to; `Utf8Len` recovers Go's `len`. */
module Text {
  import opened Wrappers

  const MinInt64: int := -0x8000_0000_0000_0000
  const MaxInt64: int := 0x7FFF_FFFF_FFFF_FFFF

  // ---------------------------------------------------------------------
  // Whitespace and trimming

  /** `unicode.IsSpace`: the Latin-1 spaces plus the White_Space property. */
  predicate IsSpace(c: char)
  {
    c == '\t' || c == '\n' || c == '\U{000B}' || c == '\U{000C}' || c == '\r' || c == ' '
    || c == '\U{0085}' || c == '\U{00A0}' || c == '\U{1680}'
    || ('\U{2000}' <= c <= '\U{200A}')
    || c == '\U{2028}' || c == '\U{2029}' || c == '\U{202F}' || c == '\U{205F}' || c == '\U{3000}'
  }

  /** Drops leading white space: the result is the longest suffix of `s`
      that does not start with a space. */
  function TrimLeft(s: string): (r: string)
    ensures |r| <= |s| && r == s[|s| - |r|..]
    ensures r == [] || !IsSpace(r[0])
    ensures forall k :: 0 <= k < |s| - |r| ==> IsSpace(s[k])
  {
    if |s| > 0 && IsSpace(s[0]) then TrimLeft(s[1..]) else s
  }

  /** Drops trailing white space: the longest prefix not ending in a space. */
  function TrimRight(s: string): (r: string)
    ensures |r| <= |s| && r == s[..|r|]
    ensures r == [] || !IsSpace(r[|r| - 1])
    ensures forall k :: |r| <= k < |s| ==> IsSpace(s[k])
  {
    if |s| > 0 && IsSpace(s[|s| - 1]) then TrimRight(s[..|s| - 1]) else s
  }

  /** `strings.TrimSpace`. */
  function TrimSpace(s: string): string
  {
    TrimRight(TrimLeft(s))
  }

  /** `r` is the slice of `s` starting at `a`, and every character of `s`
      before or after that slice is a space. */
  predicate SpaceTrimmedSlice(s: string, a: int, r: string)
  {
    && 0 <= a <= a + |r| <= |s| && r == s[a..a + |r|]
    && (forall k :: 0 <= k < a ==> IsSpace(s[k]))
    && (forall k :: a + |r| <= k < |s| ==> IsSpace(s[k]))
  }

  /** What TrimSpace guarantees: the result is the slice of `s` that starts
      after the leading spaces TrimLeft drops, and only spaces are cut off
      either side... */
  lemma {:induction false} TrimSpaceSlice(s: string)
    ensures SpaceTrimmedSlice(s, |s| - |TrimLeft(s)|, TrimSpace(s))
  {
    SliceOfSuffix(s, TrimLeft(s), TrimSpace(s));
  }

  /** A prefix `r` of the suffix `l` of `s`, with only spaces before `l`
      in `s` and after `r` in `l`, is a space-trimmed slice of `s`. */
  lemma {:induction false} SliceOfSuffix(s: string, l: string, r: string)
    requires |l| <= |s| && l == s[|s| - |l|..] && |r| <= |l| && r == l[..|r|]
    requires forall k :: 0 <= k < |s| - |l| ==> IsSpace(s[k])
    requires forall k :: |r| <= k < |l| ==> IsSpace(l[k])
    ensures SpaceTrimmedSlice(s, |s| - |l|, r)
  {
    var a := |s| - |l|;
    forall k | a + |r| <= k < |s|
      ensures IsSpace(s[k])
    {
      assert s[k] == l[k - a];
    }
  }

  /** ...and it neither starts nor ends with one. */
  lemma {:induction false} TrimSpaceEnds(s: string)
    ensures TrimSpace(s) == [] || (!IsSpace(TrimSpace(s)[0]) && !IsSpace(TrimSpace(s)[|TrimSpace(s)| - 1]))
  {
    var l := TrimLeft(s);
    var r := TrimRight(l);
    if r != [] {
      assert r == l[..|r|];
      assert r[0] == l[0];
    }
  }

  /** Trimming a string that has no surrounding spaces changes nothing. */
  lemma {:induction false} TrimSpaceIdempotent(s: string)
    requires s == [] || (!IsSpace(s[0]) && !IsSpace(s[|s| - 1]))
    ensures TrimSpace(s) == s
  {
  }

  // ---------------------------------------------------------------------
  // Byte length and searching

  /** Number of bytes in the UTF-8 encoding of `c`. */
  function Utf8Width(c: char): (n: nat)
    ensures 1 <= n <= 4
    ensures n == 1 <==> c < '\U{0080}'
  {
    if c < '\U{0080}' then 1
    else if c < '\U{0800}' then 2
    else if c < '\U{10000}' then 3
    else 4
  }

  /** Go's `len` of a string: its UTF-8 byte count. */
  function Utf8Len(s: string): (n: nat)
    ensures n >= |s|
    ensures (forall k :: 0 <= k < |s| ==> s[k] < '\U{0080}') ==> n == |s|
  {
    if s == [] then 0 else Utf8Len(s[..|s| - 1]) + Utf8Width(s[|s| - 1])
  }

  lemma {:induction false} Utf8LenAppend(a: string, b: string)
    ensures Utf8Len(a + b) == Utf8Len(a) + Utf8Len(b)
    decreases |b|
  {
    if b != [] {
      assert (a + b)[..|a + b| - 1] == a + b[..|b| - 1];
      Utf8LenAppend(a, b[..|b| - 1]);
    } else {
      assert a + b == a;
    }
  }

  predicate HasPrefix(s: string, p: string)
  {
    |p| <= |s| && s[..|p|] == p
  }

  /** `strings.Index(s, string(c))`: the first position of `c`, or -1. */
  function IndexOf(s: string, c: char): (r: int)
    ensures -1 <= r < |s|
    ensures r == -1 <==> c !in s
    ensures r >= 0 ==> s[r] == c && c !in s[..r]
  {
    if s == [] then -1
    else if s[0] == c then 0
    else
      var k := IndexOf(s[1..], c);
      assert s[1..][..if k < 0 then 0 else k] == s[1..if k < 0 then 1 else k + 1];
      if k < 0 then -1 else k + 1
  }

  // ---------------------------------------------------------------------
  // Decimal integers

  predicate IsDigit(c: char) { '0' <= c <= '9' }

  predicate AllDigits(s: string) { forall k :: 0 <= k < |s| ==> IsDigit(s[k]) }

  function DigitChar(d: nat): (c: char)
    requires d < 10
    ensures IsDigit(c) && c as int - '0' as int == d
  {
    ('0' as int + d) as char
  }

  /** The value of a string of decimal digits. */
  function DigitsValue(s: string): nat
    requires AllDigits(s)
  {
    if s == [] then 0 else DigitsValue(s[..|s| - 1]) * 10 + (s[|s| - 1] as int - '0' as int)
  }

  /** Shortest decimal digits of a natural number. */
  function NatDigits(n: nat): (s: string)
    ensures |s| > 0 && AllDigits(s)
  {
    if n < 10 then [DigitChar(n)] else NatDigits(n / 10) + [DigitChar(n % 10)]
  }

  /** `strconv.Itoa`: decimal text with a leading '-' for negatives. */
  function Itoa(n: int): (s: string)
    ensures |s| > 0
    ensures ':' !in s && ';' !in s
  {
    var s := if n < 0 then "-" + NatDigits(-n) else NatDigits(n);
    assert forall k :: 0 <= k < |s| ==> s[k] == '-' || IsDigit(s[k]);
    s
  }

  /** `strconv.ParseInt(s, 10, 64)`: an optional sign and at least one
      decimal digit, within the signed 64-bit range; `None` on any error. */
  function ParseInt64(s: string): (r: Option<int>)
    ensures r.Some? ==> MinInt64 <= r.value <= MaxInt64
    ensures r.Some? ==> |s| > 0
  {
    if |s| == 0 then None
    else
      var body := if s[0] == '+' || s[0] == '-' then s[1..] else s;
      if |body| == 0 || !AllDigits(body) then None
      else
        var mag: int := DigitsValue(body);
        var v := if s[0] == '-' then -mag else mag;
        if MinInt64 <= v <= MaxInt64 then Some(v) else None
  }

  lemma {:induction false} DigitsValueOfNatDigits(n: nat)
    ensures DigitsValue(NatDigits(n)) == n
  {
    if n >= 10 {
      var s := NatDigits(n);
      assert s[..|s| - 1] == NatDigits(n / 10);
      DigitsValueOfNatDigits(n / 10);
    }
  }

  /** `ParseInt(Itoa(n))` gives `n` back for every 64-bit integer. */
  lemma ParseItoa(n: int)
    requires MinInt64 <= n <= MaxInt64
    ensures ParseInt64(Itoa(n)) == Some(n)
  {
    var m: nat := if n < 0 then -n else n;
    var d := NatDigits(m);
    DigitsValueOfNatDigits(m);
    var s := Itoa(n);
    if n < 0 {
      assert s == "-" + d;
      assert s[0] == '-' && s[1..] == d;
    } else {
      assert s == d;
      assert IsDigit(s[0]);
    }
  }


  /** Distinct integers have distinct decimal text. */
  lemma ItoaInjective(m: int, n: int)
    requires MinInt64 <= m <= MaxInt64 && MinInt64 <= n <= MaxInt64
    requires Itoa(m) == Itoa(n)
    ensures m == n
  {
    ParseItoa(m);
    ParseItoa(n);
  }

  // ---------------------------------------------------------------------
  // Go's `<` on strings

  /** Lexicographic order. For valid UTF-8, comparing bytes (as Go does)
      and comparing code points give the same answer. */
  predicate Less(a: string, b: string)
    decreases |a|
  {
    if a == [] then b != []
    else if b == [] then false
    else if a[0] != b[0] then a[0] < b[0]
    else Less(a[1..], b[1..])
  }

  lemma {:induction false} LessIrreflexive(a: string)
    ensures !Less(a, a)
    decreases |a|
  {
    if a != [] { LessIrreflexive(a[1..]); }
  }

  lemma {:induction false} LessTransitive(a: string, b: string, c: string)
    requires Less(a, b) && Less(b, c)
    ensures Less(a, c)
    decreases |a|
  {
    if a != [] && b != [] && c != [] && a[0] == b[0] && b[0] == c[0] {
      LessTransitive(a[1..], b[1..], c[1..]);
    }
  }

  lemma {:induction false} LessTotal(a: string, b: string)
    requires a != b
    ensures Less(a, b) || Less(b, a)
    decreases |a|
  {
    if a != [] && b != [] && a[0] == b[0] {
      assert a == [a[0]] + a[1..] && b == [b[0]] + b[1..];
      LessTotal(a[1..], b[1..]);
    }
  }

  lemma {:induction false} LessAsymmetric(a: string, b: string)
    requires Less(a, b)
    ensures !Less(b, a)
    decreases |a|
  {
    if a != [] && b != [] && a[0] == b[0] {
      LessAsymmetric(a[1..], b[1..]);
    }
  }
}
