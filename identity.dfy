/** TETRA subscriber identities as TetraLogic.cpp handles them: getTSI, which
    turns an ISSI or a full TSI into the 17-digit form MCC(4) MNC(5) ISSI(8),
    the fixed-offset slicing of a TSI in handleCallBegin, and the identity
    check of handleCnumf. */
module Identity {
  import opened Basics
  import opened CStrings

  // ---------------------------------------------------------------------
  // getTSI
  // ---------------------------------------------------------------------

  /** The MCC of a full TSI takes 4 characters when the TSI starts with '0'
      and 3 otherwise. */
  function MccWidth(tsi: string): (w: nat)
    requires |tsi| >= 1
    ensures w == 4 <==> tsi[0] == '0'
    ensures w == 3 || w == 4
  {
    if tsi[..1] == "0" then 4 else 3
  }

  /** The inputs getTSI can format without overflowing its 18-byte buffer:
      up to 16 characters, or 17 when the MCC has 4 digits or the "MNC"
      slice after a 3-digit MCC starts with '0'. A 17-character input
      with neither gives 4 + 9 + 5 characters and the NUL, 19 bytes. */
  predicate FitsBuffer(issi: string)
  {
    |issi| <= 16 || (|issi| == 17 && (issi[0] == '0' || issi[3] == '0'))
  }

  /** getTSI as written. An input shorter than 9 characters is an ISSI of the
      own network: the configured MCC and MNC followed by its value in eight
      zero-padded digits. A longer input is a full TSI: its MCC, then the
      rest. The ISSI is cut from that rest at the offset len - 8 computed on
      the whole input, so it gets only the last 4 (or 5) characters, and
      everything between becomes the "MNC" that "%05d" prints. In positions
      of the input both pieces meet at c = len - 8 + w (RestCut). The
      result of "%04d%05d%s" must fit the 18-byte buffer of the source
      with its NUL; FitsBuffer names the inputs for which it does
      (GetTsiFits). */
  function GetTsi(mcc: string, mnc: string, issi: string): string
    requires FitsBuffer(issi)
  {
    var len := |issi|;
    if len < 9 then mcc + mnc + FormatInt(Atoi(issi), 8)
    else
      var w := MccWidth(issi);
      var c := len - 8 + w;
      FormatInt(Atoi(issi[..w]), 4) + FormatInt(Atoi(issi[w..c]), 5) + issi[c..]
  }

  /** The cut getTSI makes in what follows an MCC of width w: of
      rest = issi[w..], substr(len - 8, 8) takes the input from
      len - 8 + w on, 8 - w characters, and erase(len - 8, 8) leaves the
      input between w and len - 8 + w. */
  lemma RestCut(issi: string, w: nat)
    requires 9 <= |issi| && w <= 4
    ensures var rest := issi[w..]; var c := |issi| - 8 + w;
      Substr(rest, |issi| - 8, 8) == issi[c..] && |issi[c..]| == 8 - w &&
      rest[..|issi| - 8] == issi[w..c]
  {
  }

  /** getTSI as its comment intends it: the ISSI is the last 8 characters
      (all that follows the MCC when fewer remain) and the MNC is what lies
      between MCC and ISSI. */
  function GetTsiIntended(mcc: string, mnc: string, issi: string): string
    requires FitsBuffer(issi)
  {
    var len := |issi|;
    if len < 9 then mcc + mnc + FormatInt(Atoi(issi), 8)
    else
      var w := MccWidth(issi);
      var c := if len - 8 >= w then len - 8 else w;
      FormatInt(Atoi(issi[..w]), 4) + FormatInt(Atoi(issi[w..c]), 5) + issi[c..]
  }

  /** The long path of getTSI as written. */
  lemma GetTsiLong(mcc: string, mnc: string, issi: string)
    requires 9 <= |issi| <= 17 && FitsBuffer(issi)
    ensures var w := MccWidth(issi); var c := |issi| - 8 + w;
      GetTsi(mcc, mnc, issi) == FormatInt(Atoi(issi[..w]), 4) + FormatInt(Atoi(issi[w..c]), 5) + issi[c..]
  {
  }

  /** Every input FitsBuffer admits leaves getTSI's "%04d%05d%s" within
      17 characters, so the buffer holds it and its NUL. */
  lemma GetTsiFits(mcc: string, mnc: string, issi: string)
    requires 9 <= |issi| <= 17 && FitsBuffer(issi)
    ensures |GetTsi(mcc, mnc, issi)| <= 17
  {
    GetTsiLong(mcc, mnc, issi);
    MccFits(issi);
    MncFits(issi);
  }

  /** The MCC getTSI prints takes its 4 characters. */
  lemma MccFits(issi: string)
    requires 9 <= |issi| <= 17
    ensures |FormatInt(Atoi(issi[..MccWidth(issi)]), 4)| <= 4
  {
    FormatAtoiWidth(issi[..MccWidth(issi)], 4);
  }

  /** The "MNC" getTSI prints leaves room for the 8 - w characters that
      follow it, w being the width of the MCC: a 9-character slice after a
      3-digit MCC needs its leading zero to do so. */
  lemma MncFits(issi: string)
    requires 9 <= |issi| <= 17 && FitsBuffer(issi)
    ensures var w := MccWidth(issi);
      |FormatInt(Atoi(issi[w..|issi| - 8 + w]), 5)| + (8 - w) <= 13
  {
    MncSlice(issi);
    MncRoom(issi[MccWidth(issi)..|issi| - 8 + MccWidth(issi)], MccWidth(issi), |issi|);
  }

  /** The "MNC" slice of a long input: 9 characters at most, and with a
      leading zero when it has 9 after a 3-digit MCC. */
  lemma MncSlice(issi: string)
    requires 9 <= |issi| <= 17 && FitsBuffer(issi)
    ensures var w := MccWidth(issi); var m := issi[w..|issi| - 8 + w];
      MncShape(m, w, |issi|)
  {
  }

  /** A slice of n - 8 characters after an MCC of width w, from an input
      of n characters, zero-led when it has 9 characters after a 3-digit
      MCC. */
  predicate MncShape(m: string, w: int, n: int)
  {
    9 <= n <= 17 && (w == 3 || w == 4) && |m| == n - 8 &&
    (w == 3 && n == 17 ==> m != [] && m[0] == '0')
  }

  /** The arithmetic of MncFits on the slice itself. */
  lemma MncRoom(m: string, w: int, n: int)
    ensures MncShape(m, w, n) ==> |FormatInt(Atoi(m), 5)| + (8 - w) <= 13
  {
    if MncShape(m, w, n) {
      FormatAtoiWidth(m, 5);
    }
  }

  /** "%0<width>d" of atoi(s) takes the field width or, when more, no more
      characters than `s`, and fewer than `s` when `s` starts with a zero. */
  lemma FormatAtoiWidth(s: string, width: nat)
    requires width >= 1
    ensures |FormatInt(Atoi(s), width)| <= width || |FormatInt(Atoi(s), width)| <= |s|
    ensures s != [] && s[0] == '0' ==>
      |FormatInt(Atoi(s), width)| <= width || |FormatInt(Atoi(s), width)| < |s|
  {
    var n := Atoi(s);
    AtoiDigitCount(s);
    FormatWidth(Magnitude(n), width);
    if n < 0 {
      assert n == 0 - Magnitude(n);
    }
  }

  function Magnitude(n: int): nat
  {
    if n < 0 then 0 - n else n
  }

  /** The digits "%d" prints for atoi(s), with its sign, are no more than
      the characters of `s`, and fewer when `s` starts with a zero, unless
      there is a single one. */
  lemma AtoiDigitCount(s: string)
    ensures var n := Atoi(s); var k := |DecimalString(Magnitude(n))|;
      (k == 1 || k + (if n < 0 then 1 else 0) <= |s|) &&
      (s != [] && s[0] == '0' ==> k == 1 || k < |s|)
  {
    var d := AtoiDigitsOf(s);
    DigitsWidth(d);
    if s != [] && s[0] == '0' {
      var e := d[1..];
      assert d == "0" + e;
      LeadingZero(e);
      DigitsWidth(e);
    }
  }

  /** The digits atoi reads from `s`: a value of `s` is that of these
      digits, negated after a minus sign, which then takes a character. */
  function AtoiDigitsOf(s: string): (d: string)
    ensures AllDigits(d) && |d| <= |s|
    ensures Atoi(s) == DecimalValue(d) || (Atoi(s) == 0 - DecimalValue(d) && |d| < |s|)
    ensures s != [] && s[0] == '0' ==> d != [] && d[0] == '0'
  {
    var t := SkipSpace(s);
    if t != [] && (t[0] == '-' || t[0] == '+') then LeadingDigits(t[1..])
    else
      assert s != [] && s[0] == '0' ==> t == s;
      LeadingDigits(t)
  }

  /** "%0<width>d" of a value or its negation: the digits padded to the
      width, the sign counted in it. */
  lemma FormatWidth(v: nat, width: nat)
    requires width >= 1
    ensures var k := |DecimalString(v)|;
      |FormatInt(v, width)| == (if k < width then width else k) &&
      (v > 0 ==> |FormatInt(0 - v, width)| == 1 + (if k < width - 1 then width - 1 else k))
  {
  }

  /** The shortest spelling of a digit string's value is no longer than the
      string, or a single digit. */
  lemma DigitsWidth(d: string)
    requires AllDigits(d)
    ensures |DecimalString(DecimalValue(d))| <= |d| || |DecimalString(DecimalValue(d))| == 1
  {
    if d != [] {
      PadRoundTrip(d);
    }
  }

  lemma ZerosSplit(a: nat, b: nat)
    ensures Zeros(a + b) == Zeros(a) + Zeros(b)
  {
  }

  /** Padding a digit string to a wider field puts zeros in front of it. */
  lemma PadWider(d: string, width: nat)
    requires AllDigits(d) && 1 <= |d| <= width
    ensures FormatInt(DecimalValue(d), width) == Zeros(width - |d|) + d
  {
    var v := DecimalValue(d);
    PadRoundTrip(d);
    FormatNat(v, width);
    PadFurther(DecimalString(v), d, width);
  }

  /** Padding to a wider field what pads to `d` puts zeros in front of `d`. */
  lemma PadFurther(ds: string, d: string, width: nat)
    requires ZeroPad(ds, |d|) == d && |d| <= width
    ensures ZeroPad(ds, width) == Zeros(width - |d|) + d
  {
    ZerosSplit(width - |d|, |d| - |ds|);
    ConcatAssoc(Zeros(width - |d|), Zeros(|d| - |ds|), ds);
  }

  /** "%0<width>d" of a value that is not negative pads its digits. */
  lemma FormatNat(v: nat, width: nat)
    ensures FormatInt(v, width) == ZeroPad(DecimalString(v), width)
  {
  }

  /** A digit string of at least `width` characters without a leading zero
      is printed back unchanged by "%0<width>d". */
  lemma PadCanonical(d: string, width: nat)
    requires AllDigits(d) && width <= |d| && 1 <= |d| && d[0] != '0'
    ensures FormatInt(Atoi(d), width) == d
  {
    AtoiDigits(d);
    DecimalStringCanonical(d);
  }

  /** A digit string is printed back unchanged by "%0<|d|>d". */
  lemma PadSame(d: string)
    requires AllDigits(d) && 1 <= |d|
    ensures FormatInt(Atoi(d), |d|) == d
  {
    AtoiDigits(d);
    PadRoundTrip(d);
  }

  /** A short ISSI of digits becomes the own MCC and MNC followed by the ISSI
      padded with zeros to 8 digits, and reading those 8 digits back gives
      the ISSI's value. */
  lemma GetTsiShortIssi(mcc: string, mnc: string, issi: string)
    requires 1 <= |issi| < 9 && AllDigits(issi)
    ensures GetTsi(mcc, mnc, issi) == mcc + mnc + (Zeros(8 - |issi|) + issi)
    ensures Atoi(GetTsi(mcc, mnc, issi)[|mcc| + |mnc|..]) == DecimalValue(issi)
  {
    var v := DecimalValue(issi);
    var x := GetTsi(mcc, mnc, issi);
    assert x == mcc + mnc + FormatInt(v, 8) by {
      AtoiDigits(issi);
    }
    assert FormatInt(v, 8) == Zeros(8 - |issi|) + issi by {
      PadWider(issi, 8);
    }
    assert Atoi(FormatInt(v, 8)) == v by {
      FormatIntRoundTrip(v, 8);
    }
    assert x[|mcc| + |mnc|..] == FormatInt(v, 8);
  }

  /** A 17-digit TSI with a 4-digit MCC whose MNC does not start with '0'
      passes getTSI unchanged. */
  lemma GetTsiKeepsTsi(mcc: string, mnc: string, t: string)
    requires |t| == 17 && AllDigits(t) && t[0] == '0' && t[4] != '0'
    ensures GetTsi(mcc, mnc, t) == t
  {
    GetTsiLong(mcc, mnc, t);
    MccKept(t);
    MncKept(t);
    Glue(t, 4, 13);
  }

  /** The 4-digit MCC of a TSI of digits is printed back unchanged. */
  lemma MccKept(t: string)
    requires 9 <= |t| && AllDigits(t) && t[0] == '0'
    ensures MccWidth(t) == 4 && FormatInt(Atoi(t[..4]), 4) == t[..4]
  {
    PadSame(t[..4]);
  }

  /** A 9-digit MNC slice without a leading zero is printed back unchanged
      by "%05d". */
  lemma MncKept(t: string)
    requires |t| == 17 && AllDigits(t) && t[4] != '0'
    ensures FormatInt(Atoi(t[4..13]), 5) == t[4..13]
  {
    PadCanonical(t[4..13], 5);
  }

  /** Three consecutive slices make up the whole. */
  lemma Glue(t: string, i: nat, j: nat)
    requires i <= j <= |t|
    ensures t[..i] + t[i..j] + t[j..] == t
  {
  }

  /** The discrepancy in general: a 17-digit TSI whose MNC starts with '0'
      comes back from getTSI as written shorter than it went in, because
      atoi drops the leading zero of the 9-character "MNC" slice. */
  lemma GetTsiLosesMncZero(mcc: string, mnc: string, t: string)
    requires |t| == 17 && AllDigits(t) && t[0] == '0' && t[4] == '0'
    ensures |GetTsi(mcc, mnc, t)| < 17
  {
    GetTsiLong(mcc, mnc, t);
    MccKept(t);
    ZeroLedShrinks(t[4..13]);
  }

  /** "%05d" of a 9-character string with a leading zero takes at most 8
      characters. */
  lemma ZeroLedShrinks(d: string)
    requires |d| == 9 && d[0] == '0'
    ensures |FormatInt(Atoi(d), 5)| <= 8
  {
    FormatAtoiWidth(d, 5);
  }

  /** The discrepancy exactly: when only the first digit of the MNC is a
      zero, getTSI as written returns the TSI without that digit. */
  lemma GetTsiDropsMncDigit(mcc: string, mnc: string, t: string)
    requires |t| == 17 && AllDigits(t) && t[0] == '0' && t[4] == '0' && t[5] != '0'
    ensures GetTsi(mcc, mnc, t) == t[..4] + t[5..]
  {
    GetTsiLong(mcc, mnc, t);
    MccKept(t);
    MncDropped(t);
    GlueDrop(t);
  }

  /** The MNC slice of a 17-digit TSI loses its single leading zero. */
  lemma MncDropped(t: string)
    requires |t| == 17 && AllDigits(t) && t[4] == '0' && t[5] != '0'
    ensures FormatInt(Atoi(t[4..13]), 5) == t[5..13]
  {
    assert t[4..13][1..] == t[5..13];
    ZeroLedDrops(t[4..13]);
  }

  /** "%05d" of a 9-digit string with a single leading zero is the string
      without it. */
  lemma ZeroLedDrops(d: string)
    requires AllDigits(d) && |d| == 9 && d[0] == '0' && d[1] != '0'
    ensures FormatInt(Atoi(d), 5) == d[1..]
  {
    var e := d[1..];
    assert d == "0" + e;
    AtoiLeadingZero(e);
    PadCanonical(e, 5);
  }

  /** atoi skips a leading zero of a digit string. */
  lemma AtoiLeadingZero(e: string)
    requires AllDigits(e)
    ensures Atoi("0" + e) == Atoi(e)
  {
    LeadingZero(e);
    AtoiDigits("0" + e);
    AtoiDigits(e);
  }

  /** Three slices around a dropped character make up the rest. */
  lemma GlueDrop(t: string)
    requires |t| == 17
    ensures t[..4] + t[5..13] + t[13..] == t[..4] + t[5..]
  {
    assert t[5..] == t[5..13] + t[13..];
  }

  /** A witness of the discrepancy: the TSI of MCC 0901, MNC 01638 and
      ISSI 30023404 comes back as "0901163830023404", 16 characters with the
      MNC's zero gone (GetTsiIntendedKeepsTsi returns it unchanged). */
  lemma GetTsiDropsMncZero(t: string)
    requires t == "09010163830023404"
    ensures GetTsi("", "", t) == t[..4] + t[5..]
    ensures GetTsi("", "", t) != t
  {
    GetTsiDropsMncDigit("", "", t);
    assert |t[..4] + t[5..]| == 16;
  }

  /** Every 17-digit TSI with a 4-digit MCC passes the intended getTSI
      unchanged, whatever its MNC. */
  lemma GetTsiIntendedKeepsTsi(mcc: string, mnc: string, t: string)
    requires |t| == 17 && AllDigits(t) && t[0] == '0'
    ensures GetTsiIntended(mcc, mnc, t) == t
  {
    MccKept(t);
    IntendedMncKept(t);
    Glue(t, 4, 9);
  }

  /** The 5-digit MNC slice after a 4-digit MCC is printed back unchanged. */
  lemma IntendedMncKept(t: string)
    requires |t| == 17 && AllDigits(t)
    ensures FormatInt(Atoi(t[4..9]), 5) == t[4..9]
  {
    PadSame(t[4..9]);
  }

  /** A 16-digit TSI with a 3-digit MCC gains the leading zero of the 4-digit
      MCC under the intended getTSI. */
  lemma GetTsiIntendedWidensMcc(mcc: string, mnc: string, t: string)
    requires |t| == 16 && AllDigits(t) && t[0] != '0'
    ensures GetTsiIntended(mcc, mnc, t) == "0" + t
  {
    MccWidened(t);
    IntendedMncAfter3(t);
    GlueWiden(t);
  }

  /** A 3-digit MCC is printed by "%04d" with a zero in front. */
  lemma MccWidened(t: string)
    requires 9 <= |t| && AllDigits(t) && t[0] != '0'
    ensures MccWidth(t) == 3 && FormatInt(Atoi(t[..3]), 4) == "0" + t[..3]
  {
    AtoiDigits(t[..3]);
    PadWider(t[..3], 4);
    assert Zeros(1) == "0";
  }

  /** The 5-digit MNC slice after a 3-digit MCC is printed back unchanged. */
  lemma IntendedMncAfter3(t: string)
    requires |t| == 16 && AllDigits(t)
    ensures FormatInt(Atoi(t[3..8]), 5) == t[3..8]
  {
    PadSame(t[3..8]);
  }

  /** A zero, then three consecutive slices, make up the zero and the whole. */
  lemma GlueWiden(t: string)
    requires |t| >= 8
    ensures "0" + t[..3] + t[3..8] + t[8..] == "0" + t
  {
    assert t == t[..3] + t[3..8] + t[8..];
  }

  // ---------------------------------------------------------------------
  // TSI slicing (handleCallBegin)
  // ---------------------------------------------------------------------

  /** The numeric parts of a TSI. */
  datatype TsiParts = TsiParts(mcc: int, mnc: int, issi: int)

  /** atoi of substr(0,4), substr(4,5) and substr(9,8). substr throws
      std::out_of_range when the position lies beyond the end, which happens
      exactly when the TSI is shorter than 9 characters: None. */
  function SplitTsi(tsi: string): (r: Option<TsiParts>)
    ensures r.None? <==> |tsi| < 9
  {
    if |tsi| < 9 then None
    else Some(TsiParts(Atoi(Substr(tsi, 0, 4)), Atoi(Substr(tsi, 4, 5)), Atoi(Substr(tsi, 9, 8))))
  }

  /** The 17-digit spelling "%04d%05d%08d" of TSI parts in range. */
  function JoinTsi(p: TsiParts): (t: string)
    requires 0 <= p.mcc < 10000 && 0 <= p.mnc < 100000 && 0 <= p.issi < 100000000
  {
    FormatInt(p.mcc, 4) + FormatInt(p.mnc, 5) + FormatInt(p.issi, 8)
  }

  /** The width of a padded number in range is the padding width. */
  lemma FormatIntWidth(n: nat, width: nat, bound: nat)
    requires n < bound
    requires (bound == 10000 && width == 4) || (bound == 100000 && width == 5) || (bound == 100000000 && width == 8)
    ensures |FormatInt(n, width)| == width && AllDigits(FormatInt(n, width))
  {
    PaddedDigits(n, width);
    var d := DecimalString(n);
    assert Pow10(width) == bound by {
      assert Pow10(4) == 10000 && Pow10(5) == 100000 && Pow10(8) == 100000000;
    }
    if |d| > width {
      DigitsBound(d);
      Pow10Mono(width, |d| - 1);
    }
  }

  function Pow10(k: nat): nat
  {
    if k == 0 then 1 else 10 * Pow10(k - 1)
  }

  lemma {:induction false} Pow10Mono(a: nat, b: nat)
    requires a <= b
    ensures Pow10(a) <= Pow10(b)
    decreases b
  {
    if a < b {
      Pow10Mono(a, b - 1);
    }
  }

  /** A digit string without leading zero of length k is at least 10^(k-1). */
  lemma {:induction false} DigitsBound(d: string)
    requires AllDigits(d) && |d| >= 1 && (|d| == 1 || d[0] != '0')
    ensures |d| > 1 ==> DecimalValue(d) >= Pow10(|d| - 1)
    decreases |d|
  {
    if |d| > 1 {
      var h := d[..|d| - 1];
      DigitsBound(h);
      if |h| == 1 {
        assert DecimalValue(h) == DigitValue(h[0]) by {
          assert h[..0] == [];
        }
      }
    }
  }

  /** Slicing reads back the parts that the 17-digit spelling wrote. */
  lemma SplitJoinTsi(p: TsiParts)
    requires 0 <= p.mcc < 10000 && 0 <= p.mnc < 100000 && 0 <= p.issi < 100000000
    ensures |JoinTsi(p)| == 17
    ensures SplitTsi(JoinTsi(p)) == Some(p)
  {
    var a, b, c := FormatInt(p.mcc, 4), FormatInt(p.mnc, 5), FormatInt(p.issi, 8);
    FormatIntWidth(p.mcc, 4, 10000);
    FormatIntWidth(p.mnc, 5, 100000);
    FormatIntWidth(p.issi, 8, 100000000);
    var t := a + b + c;
    assert Substr(t, 0, 4) == a;
    assert Substr(t, 4, 5) == b;
    assert Substr(t, 9, 8) == c;
    FormatIntRoundTrip(p.mcc, 4);
    FormatIntRoundTrip(p.mnc, 5);
    FormatIntRoundTrip(p.issi, 8);
  }

  // ---------------------------------------------------------------------
  // handleCnumf
  // ---------------------------------------------------------------------

  /** What handleCnumf warns about. */
  datatype Mismatch = WrongMcc | WrongMnc | WrongIssi

  /** The text after "+CNUMF: " (which is removed when present). */
  function CnumfBody(answer: string): (r: string)
    ensures Contains(answer, "+CNUMF: ") ==> r == EraseFront(answer, 8)
    ensures !Contains(answer, "+CNUMF: ") ==> r == answer
  {
    if Contains(answer, "+CNUMF: ") then EraseFront(answer, 8) else answer
  }

  /** handleCnumf's check of the radio's own identity against the configured
      one: the number type is converted to `short`; for type 6 the TSI's
      MCC, MNC and ISSI slices are compared. None when the slices throw
      std::out_of_range (a TSI shorter than 9 characters). */
  function CnumfCheck(mcc: string, mnc: string, issi: string, answer: string): Option<seq<Mismatch>>
  {
    CnumfCheckField(mcc, mnc, issi, NextVal(CnumfBody(answer)))
  }

  /** The check on the number type and the rest of the answer. */
  function CnumfCheckField(mcc: string, mnc: string, issi: string, f: IntField): (r: Option<seq<Mismatch>>)
    ensures ToShort(f.value) != 6 ==> r == Some([])
    ensures r.None? <==> ToShort(f.value) == 6 && |f.rest| < 9
  {
    if ToShort(f.value) != 6 then Some([])
    else if |f.rest| < 9 then None
    else
      var m := f.rest;
      Some((if mcc != Substr(m, 0, 4) then [WrongMcc] else []) +
           (if mnc != Substr(m, 4, 5) then [WrongMnc] else []) +
           (if Atoi(issi) != Atoi(Substr(m, 9, 8)) then [WrongIssi] else []))
  }

  /** The radio reporting the configured identity raises no warning. */
  lemma CnumfOwnIdentity(mcc: string, mnc: string, issi: string)
    requires |mcc| == 4 && |mnc| == 5 && |issi| == 8
    ensures CnumfCheck(mcc, mnc, issi, "+CNUMF: 6," + (mcc + mnc + issi)) == Some([])
  {
    var m := mcc + mnc + issi;
    CnumfType6(m);
    OwnSlices(mcc, mnc, issi);
    CnumfAllMatch(mcc, mnc, issi, m);
  }

  /** The slices of a TSI put together from its parts are the parts. */
  lemma OwnSlices(mcc: string, mnc: string, issi: string)
    requires |mcc| == 4 && |mnc| == 5 && |issi| == 8
    ensures var m := mcc + mnc + issi;
      Substr(m, 0, 4) == mcc && Substr(m, 4, 5) == mnc && Substr(m, 9, 8) == issi
  {
    var m := mcc + mnc + issi;
    assert m[..4] == mcc && m[4..9] == mnc && m[9..] == issi;
  }

  /** The check passes once the number type is 6 and the slices agree. */
  lemma CnumfAllMatch(mcc: string, mnc: string, issi: string, m: string)
    requires |m| >= 17
    requires Substr(m, 0, 4) == mcc && Substr(m, 4, 5) == mnc && Substr(m, 9, 8) == issi
    ensures CnumfCheckField(mcc, mnc, issi, IntField(6, m)) == Some([])
  {
    assert ToShort(6) == 6;
    var x := (if mcc != Substr(m, 0, 4) then [WrongMcc] else []) +
             (if mnc != Substr(m, 4, 5) then [WrongMnc] else []) +
             (if Atoi(issi) != Atoi(Substr(m, 9, 8)) then [WrongIssi] else []);
    assert x == [];
  }

  /** An answer of number type 6 is read as such. */
  lemma CnumfType6(m: string)
    ensures NextVal(CnumfBody("+CNUMF: 6," + m)) == IntField(6, m)
  {
    assert CnumfBody("+CNUMF: 6," + m) == "6," + m by {
      assert "+CNUMF: 6," + m == "+CNUMF: " + ("6," + m);
      CnumfBodyOf("6," + m);
    }
    assert "6," + m == "6" + "," + m;
    NextStrSplit("6", m);
    AtoiDigits("6");
  }

  /** The body of an answer that starts with the prefix. */
  lemma CnumfBodyOf(rest: string)
    ensures CnumfBody("+CNUMF: " + rest) == rest
  {
    var answer := "+CNUMF: " + rest;
    assert OccursAt(answer, "+CNUMF: ", 0);
    assert answer[8..] == rest;
  }

  /** A number type other than 6 is not checked. */
  lemma CnumfOtherType(mcc: string, mnc: string, issi: string, answer: string)
    requires ToShort(NextVal(CnumfBody(answer)).value) != 6
    ensures CnumfCheck(mcc, mnc, issi, answer) == Some([])
  {
  }
}
