/** The pieces of the C and C++ libraries that the PEI driver builds on, over
    strings of characters: std::string::find, substr and erase, atoi, the
    "%0Nd" conversion of printf, the conversion to `short`, and the
    comma-separated field readers getNextStr/getNextVal that TetraLogic.cpp
    takes from TetraLib.h. */
module CStrings {
  import opened Basics

  /** The byte 0x1A that ends an SDS submission instead of a carriage return. */
  const CtrlZ: char := 26 as char

  // ---------------------------------------------------------------------
  // std::string::find
  // ---------------------------------------------------------------------

  /** `pat` occurs in `s` starting at index `i`. */
  predicate OccursAt(s: string, pat: string, i: nat)
  {
    i + |pat| <= |s| && s[i..i + |pat|] == pat
  }

  /** std::string::find: the first index at which `pat` occurs in `s`, or
      None for std::string::npos. */
  function Find(s: string, pat: string): (r: Option<nat>)
    ensures r.Some? ==> OccursAt(s, pat, r.value)
    ensures r.Some? ==> forall j: nat :: j < r.value ==> !OccursAt(s, pat, j)
    ensures r.None? ==> forall j: nat :: !OccursAt(s, pat, j)
    decreases |s|
  {
    if |s| < |pat| then None
    else if pat <= s then Some(0)
    else
      var tail := Find(s[1..], pat);
      assert !OccursAt(s, pat, 0) by {
        assert s[0..|pat|] == s[..|pat|];
      }
      assert forall j: nat :: j >= 1 ==> (OccursAt(s, pat, j) <==> OccursAt(s[1..], pat, j - 1)) by {
        forall j: nat | j >= 1 ensures OccursAt(s, pat, j) <==> OccursAt(s[1..], pat, j - 1) {
          if j + |pat| <= |s| {
            assert s[1..][j - 1..j - 1 + |pat|] == s[j..j + |pat|];
          }
        }
      }
      match tail
      case None => None
      case Some(i) => Some(i + 1)
  }

  /** An occurrence with none before it is what find returns. */
  lemma FindIs(s: string, pat: string, i: nat)
    requires OccursAt(s, pat, i)
    requires forall j: nat :: j < i ==> !OccursAt(s, pat, j)
    ensures Find(s, pat) == Some(i)
  {
  }

  /** Appending to a string does not move an occurrence that was already there. */
  lemma FindInPrefix(a: string, b: string, pat: string)
    requires Find(a, pat).Some?
    ensures Find(a + b, pat) == Find(a, pat)
  {
    var i := Find(a, pat).value;
    assert (a + b)[i..i + |pat|] == a[i..i + |pat|];
    forall j: nat | j < i ensures !OccursAt(a + b, pat, j) {
      assert !OccursAt(a, pat, j);
      assert (a + b)[j..j + |pat|] == a[j..j + |pat|];
    }
    FindIs(a + b, pat, i);
  }

  /** The string contains `pat` somewhere (find != npos). */
  predicate Contains(s: string, pat: string)
  {
    Find(s, pat).Some?
  }

  // ---------------------------------------------------------------------
  // substr and erase
  // ---------------------------------------------------------------------

  function Min(a: int, b: int): int { if a <= b then a else b }

  /** s.substr(pos, n); the source's substr throws when pos > size, which
      callers rule out or model separately. */
  function Substr(s: string, pos: nat, n: nat): (r: string)
    requires pos <= |s|
    ensures |r| == Min(n, |s| - pos)
    ensures r <= s[pos..]
  {
    s[pos..pos + Min(n, |s| - pos)]
  }

  /** s.erase(0, n): drops at most `n` leading characters. */
  function EraseFront(s: string, n: nat): (r: string)
    ensures |r| == |s| - Min(n, |s|)
    ensures r == s[|s| - |r|..]
  {
    if n <= |s| then s[n..] else []
  }

  // ---------------------------------------------------------------------
  // atoi
  // ---------------------------------------------------------------------

  predicate IsDigit(c: char) { '0' <= c <= '9' }

  predicate AllDigits(s: string)
  {
    forall i :: 0 <= i < |s| ==> IsDigit(s[i])
  }

  /** isspace in the C locale. */
  predicate IsSpace(c: char)
  {
    c == ' ' || c == '\t' || c == '\n' || c == '\r' || c == 11 as char || c == 12 as char
  }

  function DigitValue(c: char): nat
    requires IsDigit(c)
  {
    c as int - '0' as int
  }

  function DigitChar(d: nat): (c: char)
    requires d < 10
    ensures IsDigit(c) && DigitValue(c) == d
  {
    ('0' as int + d) as char
  }

  /** The value of a string of decimal digits, most significant first. */
  function DecimalValue(d: string): nat
    requires AllDigits(d)
    decreases |d|
  {
    if d == [] then 0 else DecimalValue(d[..|d| - 1]) * 10 + DigitValue(d[|d| - 1])
  }

  /** The string without its leading white space. */
  function SkipSpace(s: string): (r: string)
    ensures |r| <= |s| && r == s[|s| - |r|..]
    ensures r == [] || !IsSpace(r[0])
    ensures forall i :: 0 <= i < |s| - |r| ==> IsSpace(s[i])
  {
    if s != [] && IsSpace(s[0]) then SkipSpace(s[1..]) else s
  }

  /** The longest prefix made of decimal digits. */
  function LeadingDigits(s: string): (r: string)
    ensures r <= s && AllDigits(r)
    ensures |r| == |s| || !IsDigit(s[|r|])
  {
    if s != [] && IsDigit(s[0]) then [s[0]] + LeadingDigits(s[1..]) else []
  }

  /** C's atoi: white space, an optional sign, then as many digits as there
      are; 0 when there are none. (Overflow, which is undefined in C, is not
      modelled: the value is unbounded.) */
  function Atoi(s: string): int
  {
    var t := SkipSpace(s);
    if t != [] && t[0] == '-' then 0 - DecimalValue(LeadingDigits(t[1..]))
    else if t != [] && t[0] == '+' then DecimalValue(LeadingDigits(t[1..]))
    else DecimalValue(LeadingDigits(t))
  }

  /** On a string of digits atoi is the decimal value. */
  lemma AtoiDigits(d: string)
    requires AllDigits(d)
    ensures Atoi(d) == DecimalValue(d)
  {
    assert SkipSpace(d) == d;
    if d != [] {
      assert d[0] != '-' && d[0] != '+';
    }
    LeadingDigitsAll(d);
  }

  lemma {:induction false} LeadingDigitsAll(d: string)
    requires AllDigits(d)
    ensures LeadingDigits(d) == d
    decreases |d|
  {
    if d != [] {
      LeadingDigitsAll(d[1..]);
    }
  }

  // ---------------------------------------------------------------------
  // printf("%0Nd")
  // ---------------------------------------------------------------------

  /** The shortest decimal spelling of `n`. */
  function DecimalString(n: nat): (r: string)
    ensures |r| >= 1 && AllDigits(r)
    ensures DecimalValue(r) == n
    ensures |r| > 1 ==> r[0] != '0'
  {
    if n < 10 then [DigitChar(n)]
    else
      var r := DecimalString(n / 10) + [DigitChar(n % 10)];
      assert r[..|r| - 1] == DecimalString(n / 10);
      r
  }

  function Zeros(k: nat): (r: string)
    ensures |r| == k && AllDigits(r)
    ensures forall i :: 0 <= i < k ==> r[i] == '0'
  {
    seq(k, _ => '0')
  }

  /** Left-pads a digit string with zeros to at least `width` characters. */
  function ZeroPad(d: string, width: nat): (r: string)
    ensures |r| == if |d| < width then width else |d|
    ensures r == Zeros(|r| - |d|) + d
  {
    if |d| < width then Zeros(width - |d|) + d else Zeros(0) + d
  }

  /** sprintf("%0<width>d", n): the minus sign counts towards the width and
      the zeros go between the sign and the digits. */
  function FormatInt(n: int, width: nat): string
  {
    if n < 0 then "-" + ZeroPad(DecimalString(-n), if width > 0 then width - 1 else 0)
    else ZeroPad(DecimalString(n), width)
  }

  /** A leading zero does not change a decimal value. */
  lemma {:induction false} LeadingZero(d: string)
    requires AllDigits(d)
    ensures AllDigits("0" + d) && DecimalValue("0" + d) == DecimalValue(d)
    decreases |d|
  {
    if d != [] {
      var e := "0" + d;
      assert e[..|e| - 1] == "0" + d[..|d| - 1];
      LeadingZero(d[..|d| - 1]);
    }
  }

  lemma {:induction false} ZerosPrefix(k: nat, d: string)
    requires AllDigits(d)
    ensures AllDigits(Zeros(k) + d) && DecimalValue(Zeros(k) + d) == DecimalValue(d)
    decreases k
  {
    if k == 0 {
      assert Zeros(k) + d == d;
    } else {
      assert Zeros(k) == "0" + Zeros(k - 1);
      assert Zeros(k) + d == "0" + (Zeros(k - 1) + d);
      ZerosPrefix(k - 1, d);
      LeadingZero(Zeros(k - 1) + d);
    }
  }

  /** atoi reads back what "%0Nd" wrote, whatever the width. */
  lemma FormatIntRoundTrip(n: int, width: nat)
    ensures Atoi(FormatInt(n, width)) == n
  {
    if n < 0 {
      var m: nat := -n;
      var w: nat := if width > 0 then width - 1 else 0;
      assert FormatInt(n, width) == "-" + ZeroPad(DecimalString(m), w);
      NegativeRoundTrip(m, w);
    } else {
      assert FormatInt(n, width) == ZeroPad(DecimalString(n), width);
      PaddedDigits(n, width);
      AtoiDigits(ZeroPad(DecimalString(n), width));
    }
  }

  lemma PaddedDigits(n: nat, width: nat)
    ensures AllDigits(ZeroPad(DecimalString(n), width))
    ensures DecimalValue(ZeroPad(DecimalString(n), width)) == n
  {
    var p := ZeroPad(DecimalString(n), width);
    ZerosPrefix(|p| - |DecimalString(n)|, DecimalString(n));
  }

  lemma NegativeRoundTrip(m: nat, w: nat)
    requires m > 0
    ensures Atoi("-" + ZeroPad(DecimalString(m), w)) == -(m as int)
  {
    var p := ZeroPad(DecimalString(m), w);
    PaddedDigits(m, w);
    LeadingDigitsAll(p);
    AtoiNegative(p);
  }

  /** atoi of a minus sign followed by digits. */
  lemma AtoiNegative(p: string)
    ensures Atoi("-" + p) == 0 - DecimalValue(LeadingDigits(p))
  {
    var f := "-" + p;
    assert f[0] == '-' && !IsSpace(f[0]);
    assert SkipSpace(f) == f;
    assert f[1..] == p;
  }

  /** A digit string is its own decimal spelling once it has no leading zero. */
  lemma {:induction false} DecimalStringCanonical(d: string)
    requires AllDigits(d) && |d| >= 1 && (|d| == 1 || d[0] != '0')
    ensures DecimalString(DecimalValue(d)) == d
    decreases |d|
  {
    if |d| > 1 {
      var h := d[..|d| - 1];
      var c := d[|d| - 1];
      DecimalValuePositive(h);
      DecimalStringCanonical(h);
      var n := DecimalValue(d);
      assert n == DecimalValue(h) * 10 + DigitValue(c);
      DivMod10(DecimalValue(h), DigitValue(c));
      assert DecimalString(n) == DecimalString(DecimalValue(h)) + [DigitChar(DigitValue(c))];
      assert d == h + [c];
    }
  }

  /** The last decimal digit and the ones before it. */
  lemma DivMod10(a: nat, b: nat)
    requires a >= 1 && b < 10
    ensures (a * 10 + b) / 10 == a && (a * 10 + b) % 10 == b && a * 10 + b >= 10
  {
  }

  lemma {:induction false} DecimalValuePositive(d: string)
    requires AllDigits(d) && |d| >= 1 && d[0] != '0'
    ensures DecimalValue(d) >= 1
    decreases |d|
  {
    if |d| > 1 {
      DecimalValuePositive(d[..|d| - 1]);
    }
  }

  /** Zero-padding the value of a digit string back to its own width gives
      the string again, leading zeros included. */
  lemma {:induction false} PadRoundTrip(d: string)
    requires AllDigits(d) && |d| >= 1
    ensures ZeroPad(DecimalString(DecimalValue(d)), |d|) == d
    decreases |d|
  {
    if |d| == 1 || d[0] != '0' {
      DecimalStringCanonical(d);
    } else {
      var t := d[1..];
      assert d == "0" + t;
      LeadingZero(t);
      PadRoundTrip(t);
      PadOneMore(DecimalString(DecimalValue(t)), t);
    }
  }

  lemma ZerosCons(n: nat)
    ensures Zeros(n + 1) == "0" + Zeros(n)
  {
    assert forall i :: 0 <= i < n + 1 ==> Zeros(n + 1)[i] == ("0" + Zeros(n))[i];
  }

  /** One more column of padding adds one more leading zero. */
  lemma PadOneMore(x: string, t: string)
    requires ZeroPad(x, |t|) == t
    ensures ZeroPad(x, |t| + 1) == "0" + t
  {
    var n := |t| - |x|;
    assert t == Zeros(n) + x;
    ZerosCons(n);
    assert ZeroPad(x, |t| + 1) == ("0" + Zeros(n)) + x;
  }

  // ---------------------------------------------------------------------
  // Conversion to short
  // ---------------------------------------------------------------------

  /** Conversion of an int to a 16-bit `short` (two's complement wrap). */
  function ToShort(n: int): (r: int)
    ensures -32768 <= r < 32768
    ensures (n - r) % 65536 == 0
    ensures -32768 <= n < 32768 ==> r == n
  {
    (n + 32768) % 65536 - 32768
  }

  // ---------------------------------------------------------------------
  // getNextStr / getNextVal (TetraLib.h)
  // ---------------------------------------------------------------------

  /** A field read from a comma-separated string and what is left of it. */
  datatype Field = Field(value: string, rest: string)

  datatype IntField = IntField(value: int, rest: string)

  /** getNextStr: the text before the first comma, and the string after that
      comma. Without a comma the whole string is the field and the string is
      left as it was. */
  function NextStr(h: string): (f: Field)
    ensures ',' !in f.value
    ensures Contains(h, ",") ==> h == f.value + "," + f.rest
    ensures !Contains(h, ",") ==> f.value == h && f.rest == h
  {
    match Find(h, ",")
    case Some(i) =>
      assert h[i..i + 1] == ",";
      assert forall j: nat :: j < i ==> h[j] != ',' by {
        forall j: nat | j < i ensures h[j] != ',' {
          assert !OccursAt(h, ",", j);
          assert h[j..j + 1] == [h[j]];
        }
      }
      assert h == h[..i] + "," + h[i + 1..];
      Field(h[..i], h[i + 1..])
    case None =>
      assert forall j :: 0 <= j < |h| ==> h[j] != ',' by {
        forall j | 0 <= j < |h| ensures h[j] != ',' {
          assert !OccursAt(h, ",", j);
          assert h[j..j + 1] == [h[j]];
        }
      }
      Field(h, h)
  }

  /** getNextVal: atoi of the next field. */
  function NextVal(h: string): (f: IntField)
  {
    var s := NextStr(h);
    IntField(Atoi(s.value), s.rest)
  }

  /** A comma-free field followed by a comma is read back exactly. */
  lemma NextStrSplit(a: string, b: string)
    requires ',' !in a
    ensures NextStr(a + "," + b) == Field(a, b)
  {
    var s := a + "," + b;
    assert s[|a|..|a| + 1] == ",";
    forall j: nat | j < |a| ensures !OccursAt(s, ",", j) {
      assert s[j..j + 1] == [a[j]];
    }
    FindIs(s, ",", |a|);
    assert s[..|a|] == a && s[|a| + 1..] == b;
  }

  /** A last field without a comma is read whole. */
  lemma NextStrLast(a: string)
    requires ',' !in a
    ensures NextStr(a) == Field(a, a)
  {
    forall j: nat ensures !OccursAt(a, ",", j) {
      if j + 1 <= |a| {
        assert a[j..j + 1] == [a[j]];
      }
    }
  }
}
