/**
 * The string operations the C++ and Python code relies on: substring search
 * (`std::string::find`, `in`), C-string truncation at the first NUL, decimal
 * formatting of an integer (`operator<<`) and its parsing back (`atoi`).
 */
module Text {
  import opened Wire

  predicate OccursAt<T(==)>(s: seq<T>, pat: seq<T>, i: nat)
  {
    i + |pat| <= |s| && s[i..i + |pat|] == pat
  }

  /** The first position at or after `from` where `pat` occurs. */
  function FindFrom<T(==)>(s: seq<T>, pat: seq<T>, from: nat): (r: Option<nat>)
    ensures r.Some? ==>
              from <= r.value && OccursAt(s, pat, r.value)
              && forall j :: from <= j < r.value ==> !OccursAt(s, pat, j)
    ensures r.None? ==> forall j :: from <= j ==> !OccursAt(s, pat, j)
    decreases |s| - from
  {
    if from + |pat| > |s| then None
    else if s[from..from + |pat|] == pat then Some(from)
    else FindFrom(s, pat, from + 1)
  }

  /** `s.find(pat)`: the first occurrence, or None for `npos`. */
  function Find<T(==)>(s: seq<T>, pat: seq<T>): (r: Option<nat>)
    ensures r.Some? ==> OccursAt(s, pat, r.value) && forall j :: 0 <= j < r.value ==> !OccursAt(s, pat, j)
    ensures r.None? ==> forall j :: !OccursAt(s, pat, j)
  {
    FindFrom(s, pat, 0)
  }

  /** `s.find(pat) < npos`, Python's `pat in s`. */
  predicate Contains<T(==)>(s: seq<T>, pat: seq<T>)
  {
    Find(s, pat).Some?
  }

  lemma ContainsIff<T>(s: seq<T>, pat: seq<T>)
    ensures Contains(s, pat) <==> exists i :: OccursAt(s, pat, i)
  {
    if Contains(s, pat) {
      assert OccursAt(s, pat, Find(s, pat).value);
    }
  }

  lemma ContainsItself<T>(s: seq<T>)
    ensures Contains(s, s)
  {
    assert OccursAt(s, s, 0);
    ContainsIff(s, s);
  }

  /** The bytes a C string holds: everything before the first NUL. */
  function CString(b: Bytes): (r: Bytes)
    ensures |r| <= |b| && r == b[..|r|] && 0 !in r
    ensures |r| < |b| ==> b[|r|] == 0
  {
    if b == [] then []
    else if b[0] == 0 then []
    else [b[0]] + CString(b[1..])
  }

  // ---------------------------------------------------------------------------
  // Decimal integers
  // ---------------------------------------------------------------------------

  const Zero: Byte := 48
  const Minus: Byte := 45
  const Plus: Byte := 43
  const Space: Byte := 32

  predicate IsDigit(c: Byte) { 48 <= c <= 57 }

  /** `isspace` in the C locale. */
  predicate IsSpace(c: Byte) { c == 32 || 9 <= c <= 13 }

  /** The digits of a natural number, most significant first, without leading zeros. */
  function NatDigits(n: nat): (r: Bytes)
    ensures |r| > 0 && forall i :: 0 <= i < |r| ==> IsDigit(r[i])
    ensures r[0] == Zero ==> n == 0
  {
    if n < 10 then [(48 + n) as Byte] else NatDigits(n / 10) + [(48 + n % 10) as Byte]
  }

  /** `stream << n` for an integer. */
  function Decimal(n: int): (r: Bytes)
    ensures |r| > 0
  {
    if n < 0 then [Minus] + NatDigits(-n) else NatDigits(n)
  }

  /** The value of a run of digits. */
  function DigitsValue(d: Bytes): nat
    requires forall i :: 0 <= i < |d| ==> IsDigit(d[i])
  {
    if d == [] then 0
    else
      assert IsDigit(d[|d| - 1]);
      var digit: nat := d[|d| - 1] as int - 48;
      DigitsValue(d[..|d| - 1]) * 10 + digit
  }

  /** The longest prefix of digits. */
  function LeadingDigits(s: Bytes): (r: Bytes)
    ensures |r| <= |s| && r == s[..|r|]
    ensures forall i :: 0 <= i < |r| ==> IsDigit(r[i])
    ensures |r| < |s| ==> !IsDigit(s[|r|])
  {
    if s == [] || !IsDigit(s[0]) then [] else [s[0]] + LeadingDigits(s[1..])
  }

  function SkipSpaces(s: Bytes): (r: Bytes)
    ensures |r| <= |s| && r == s[|s| - |r|..]
    ensures r != [] ==> !IsSpace(r[0])
  {
    if s != [] && IsSpace(s[0]) then SkipSpaces(s[1..]) else s
  }

  /**
   * `atoi`: leading white space, an optional sign, then the longest run of
   * digits; 0 when there are none.  Values beyond `int` are not modelled.
   */
  function Atoi(s: Bytes): int
  {
    var t := SkipSpaces(s);
    if t != [] && t[0] == Minus then -(DigitsValue(LeadingDigits(t[1..])) as int)
    else if t != [] && t[0] == Plus then DigitsValue(LeadingDigits(t[1..]))
    else DigitsValue(LeadingDigits(t))
  }

  lemma {:induction false} DigitsValueOfNat(n: nat)
    ensures DigitsValue(NatDigits(n)) == n
  {
    if n >= 10 {
      DigitsValueOfNat(n / 10);
      var d := NatDigits(n);
      assert d[..|d| - 1] == NatDigits(n / 10);
    }
  }

  lemma {:induction false} LeadingDigitsOf(d: Bytes, rest: Bytes)
    requires forall i :: 0 <= i < |d| ==> IsDigit(d[i])
    requires rest == [] || !IsDigit(rest[0])
    ensures LeadingDigits(d + rest) == d
  {
    if d != [] {
      assert (d + rest)[1..] == d[1..] + rest;
      LeadingDigitsOf(d[1..], rest);
    } else {
      assert d + rest == rest;
    }
  }

  lemma {:induction false} AtoiUnsigned(d: Bytes, rest: Bytes)
    requires d != [] && forall i :: 0 <= i < |d| ==> IsDigit(d[i])
    requires rest == [] || !IsDigit(rest[0])
    ensures Atoi([Space] + (d + rest)) == DigitsValue(d)
  {
    LeadingDigitsOf(d, rest);
    var t := d + rest;
    assert t[0] == d[0];
    assert SkipSpaces(t) == t;
    assert ([Space] + t)[1..] == t;
  }

  lemma {:induction false} AtoiNegative(d: Bytes, rest: Bytes)
    requires d != [] && forall i :: 0 <= i < |d| ==> IsDigit(d[i])
    requires rest == [] || !IsDigit(rest[0])
    ensures Atoi([Space] + ([Minus] + (d + rest))) == -(DigitsValue(d) as int)
  {
    LeadingDigitsOf(d, rest);
    var t := [Minus] + (d + rest);
    assert SkipSpaces(t) == t;
    assert ([Space] + t)[1..] == t;
    assert t[1..] == d + rest;
  }

  lemma {:induction false} DecimalOfNegative(n: int, rest: Bytes)
    requires n < 0
    ensures [Space] + Decimal(n) + rest == [Space] + ([Minus] + (NatDigits(-n) + rest))
  {
  }

  lemma {:induction false} DecimalOfNatural(n: nat, rest: Bytes)
    ensures [Space] + Decimal(n) + rest == [Space] + (NatDigits(n) + rest)
  {
  }

  /** `atoi(" " + stream << n)` gives back `n`, whatever non-digit follows. */
  lemma {:induction false} DecimalRoundTrip(n: int, rest: Bytes)
    requires rest == [] || !IsDigit(rest[0])
    ensures Atoi([Space] + Decimal(n) + rest) == n
  {
    if n < 0 {
      DigitsValueOfNat(-n);
      AtoiNegative(NatDigits(-n), rest);
      DecimalOfNegative(n, rest);
    } else {
      DigitsValueOfNat(n);
      AtoiUnsigned(NatDigits(n), rest);
      DecimalOfNatural(n, rest);
    }
  }

  /** A leading blank makes no difference to `atoi`. */
  lemma AtoiSkipsBlank(t: Bytes)
    ensures Atoi([Space] + t) == Atoi(t)
  {
    assert ([Space] + t)[1..] == t;
    assert SkipSpaces([Space] + t) == SkipSpaces(t);
  }

  /** `atoi` of `stream << n` read back with no leading blank. */
  lemma DecimalAtoi(n: int, rest: Bytes)
    requires rest == [] || !IsDigit(rest[0])
    ensures Atoi(Decimal(n) + rest) == n
  {
    var t := Decimal(n) + rest;
    assert [Space] + Decimal(n) + rest == [Space] + t;
    DecimalRoundTrip(n, rest);
    AtoiSkipsBlank(t);
  }
}
