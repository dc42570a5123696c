/** The per-line parsers of TetraLogic.cpp: the field readers of +CTICN,
    +CMGS, +CTDGR, +CTGS, +CLVL, +CTOM and +CTCR answers, the header
    stripping of text SDS payloads, the confirmation SDS built for a text SDS
    and the "tsi,type,payload" lines injected through the SDS pty. Each
    parser is paired with the formatter of a well-formed line and a lemma
    that reading the formatted line gives its fields back. */
module Parsers {
  import opened Basics
  import opened CStrings
  import opened Identity

  // ---------------------------------------------------------------------
  // Comma-separated fields
  // ---------------------------------------------------------------------

  /** The values read by `n` calls of getNextStr, and what is left. */
  datatype Fields = Fields(values: seq<string>, rest: string)

  function ReadFields(h: string, n: nat): (r: Fields)
    ensures |r.values| == n
  {
    if n == 0 then Fields([], h)
    else
      var f := NextStr(h);
      var t := ReadFields(f.rest, n - 1);
      Fields([f.value] + t.values, t.rest)
  }

  /** Fields written one after the other, separated by commas. */
  function Join(fs: seq<string>): string
    requires |fs| >= 1
    decreases |fs|
  {
    if |fs| == 1 then fs[0] else fs[0] + "," + Join(fs[1..])
  }

  predicate CommaFree(fs: seq<string>)
  {
    forall i :: 0 <= i < |fs| ==> ',' !in fs[i]
  }

  /** Reading `n` fields of a joined line gives the first `n` fields and
      leaves the line of the others. */
  lemma {:induction false} ReadJoin(fs: seq<string>, n: nat)
    requires n < |fs| && CommaFree(fs)
    ensures ReadFields(Join(fs), n) == Fields(fs[..n], Join(fs[n..]))
    decreases n
  {
    if n > 0 {
      var t := fs[1..];
      CommaFreeTail(fs);
      assert Join(fs) == fs[0] + "," + Join(t);
      NextStrSplit(fs[0], Join(t));
      ReadJoin(t, n - 1);
      var later := ReadFields(Join(t), n - 1);
      assert ReadFields(Join(fs), n) == Fields([fs[0]] + later.values, later.rest);
      TailSlices(fs, n);
    } else {
      assert fs[0..] == fs;
    }
  }

  lemma CommaFreeTail(fs: seq<string>)
    requires |fs| >= 1 && CommaFree(fs)
    ensures CommaFree(fs[1..])
  {
    forall i | 0 <= i < |fs| - 1 ensures ',' !in fs[1..][i] {
      assert fs[1..][i] == fs[i + 1];
    }
  }

  /** The slices of the tail in terms of the slices of the list. */
  lemma TailSlices<T>(fs: seq<T>, n: nat)
    requires 0 < n < |fs|
    ensures fs[1..][..n - 1] == fs[1..n] && fs[1..][n - 1..] == fs[n..]
    ensures [fs[0]] + fs[1..n] == fs[..n]
  {
  }

  /** Reading as many fields as the line holds gives them all; the last read
      leaves the last field in place. */
  lemma ReadJoinAll(fs: seq<string>)
    requires |fs| >= 1 && CommaFree(fs)
    ensures ReadFields(Join(fs), |fs|) == Fields(fs, fs[|fs| - 1])
  {
    var n := |fs| - 1;
    ReadJoin(fs, n);
    var last := fs[n];
    assert fs[n..] == [last];
    assert Join(fs[n..]) == last;
    NextStrLast(last);
    ReadLast(Join(fs), n, last);
    assert fs[..n] + [last] == fs;
  }

  /** One more read of a comma-free rest reads it whole. */
  lemma {:induction false} ReadLast(h: string, n: nat, last: string)
    requires ReadFields(h, n).rest == last && NextStr(last) == Field(last, last)
    ensures ReadFields(h, n + 1) == Fields(ReadFields(h, n).values + [last], last)
    decreases n
  {
    if n > 0 {
      var f := NextStr(h);
      ReadLast(f.rest, n - 1, last);
      ConcatAssoc([f.value], ReadFields(f.rest, n - 1).values, [last]);
    }
  }

  /** Each field takes at least one character. */
  lemma {:induction false} JoinMinLen(fs: seq<string>)
    requires |fs| >= 1 && forall i :: 0 <= i < |fs| ==> fs[i] != []
    ensures |Join(fs)| >= 2 * |fs| - 1
    decreases |fs|
  {
    if |fs| > 1 {
      JoinMinLen(fs[1..]);
    }
  }

  /** A joined line is at least as long as one long field and one character
      and a comma for every other field. */
  lemma {:induction false} JoinLongOne(fs: seq<string>, i: nat)
    requires i < |fs| && forall k :: 0 <= k < |fs| ==> fs[k] != []
    ensures |Join(fs)| >= 2 * |fs| - 2 + |fs[i]|
    decreases |fs|
  {
    if i > 0 {
      JoinLongOne(fs[1..], i - 1);
    } else if |fs| > 1 {
      JoinMinLen(fs[1..]);
    }
  }

  /** The same with two long fields. */
  lemma {:induction false} JoinLongTwo(fs: seq<string>, i: nat, j: nat)
    requires i < j < |fs| && forall k :: 0 <= k < |fs| ==> fs[k] != []
    ensures |Join(fs)| >= 2 * |fs| - 3 + |fs[i]| + |fs[j]|
    decreases |fs|
  {
    if i > 0 {
      JoinLongTwo(fs[1..], i - 1, j - 1);
    } else {
      JoinLongOne(fs[1..], j - 1);
    }
  }

  /** A field the radio writes as an unsigned decimal number. */
  predicate Numeral(s: string)
  {
    s != [] && AllDigits(s)
  }

  lemma NumeralCommaFree(s: string)
    requires Numeral(s)
    ensures ',' !in s
  {
    assert !IsDigit(',');
  }

  /** A numeral holds no comma and atoi reads its value. */
  lemma NumeralRead(s: string)
    requires Numeral(s)
    ensures ',' !in s && Atoi(s) == DecimalValue(s)
  {
    AtoiDigits(s);
    assert !IsDigit(',');
  }

  // ---------------------------------------------------------------------
  // +CTICN (handleCallBegin)
  // ---------------------------------------------------------------------

  /** The Callinfo record filled from an incoming call notification. */
  datatype CallInfo = CallInfo(
    instance: int, callstatus: int, aistatus: int, originCpit: int,
    oMcc: int, oMnc: int, oIssi: int,
    hook: int, simplex: int, e2eEncryption: int, commsType: int, codec: int, destCpit: int,
    dMcc: int, dMnc: int, dIssi: int,
    prio: int)

  /** What handleCallBegin makes of a line: too short to be looked at, one
      whose TSI slicing throws std::out_of_range, or the call data with the
      originator's TSI as written. */
  datatype CallBegin = TooShort | OutOfRange | Parsed(info: CallInfo, oTsi: string)

  /** The 8-character "+CTICN: " is erased, twelve fields are read with
      getNextVal/getNextStr and the priority is atoi of what is left. Both
      TSIs are cut at the fixed offsets 0, 4 and 9. */
  function ParseCticn(m: string): CallBegin
  {
    if |m| < 65 then TooShort
    else DecodeCticn(ReadFields(EraseFront(m, 8), 12))
  }

  function DecodeCticn(r: Fields): CallBegin
    requires |r.values| == 12
  {
    var f := r.values;
    var o := SplitTsi(f[4]);
    var d := SplitTsi(f[11]);
    if o.None? || d.None? then OutOfRange
    else
      Parsed(CallInfo(Atoi(f[0]), Atoi(f[1]), Atoi(f[2]), Atoi(f[3]),
                      o.value.mcc, o.value.mnc, o.value.issi,
                      Atoi(f[5]), Atoi(f[6]), Atoi(f[7]), Atoi(f[8]), Atoi(f[9]), Atoi(f[10]),
                      d.value.mcc, d.value.mnc, d.value.issi,
                      Atoi(r.rest)), f[4])
  }

  /** The thirteen fields of a +CTICN line as the radio writes them:
      numerals, and the two TSIs in their 17-digit form. */
  predicate CticnShaped(fs: seq<string>)
  {
    |fs| == 13 &&
    (forall k :: 0 <= k < 13 && k != 4 && k != 11 ==> Numeral(fs[k])) &&
    |fs[4]| == 17 && AllDigits(fs[4]) && |fs[11]| == 17 && AllDigits(fs[11])
  }

  /** The call data the fields stand for: every number by its decimal
      value, each TSI cut into MCC, MNC and ISSI of 4, 5 and 8 digits. */
  function CallOf(fs: seq<string>): CallInfo
    requires CticnShaped(fs)
  {
    var o, d := fs[4], fs[11];
    CallInfo(DecimalValue(fs[0]), DecimalValue(fs[1]), DecimalValue(fs[2]), DecimalValue(fs[3]),
             DecimalValue(o[..4]), DecimalValue(o[4..9]), DecimalValue(o[9..]),
             DecimalValue(fs[5]), DecimalValue(fs[6]), DecimalValue(fs[7]), DecimalValue(fs[8]),
             DecimalValue(fs[9]), DecimalValue(fs[10]),
             DecimalValue(d[..4]), DecimalValue(d[4..9]), DecimalValue(d[9..]),
             DecimalValue(fs[12]))
  }

  /** A 17-digit TSI splits into the values of its three digit groups. */
  lemma SplitDigits(t: string)
    requires |t| == 17 && AllDigits(t)
    ensures ',' !in t
    ensures SplitTsi(t) == Some(TsiParts(DecimalValue(t[..4]), DecimalValue(t[4..9]), DecimalValue(t[9..])))
  {
    assert !IsDigit(',');
    assert Substr(t, 0, 4) == t[..4];
    assert Substr(t, 4, 5) == t[4..9];
    assert Substr(t, 9, 8) == t[9..];
    AtoiDigits(t[..4]);
    AtoiDigits(t[4..9]);
    AtoiDigits(t[9..]);
  }

  /** Decoding a +CTICN line the radio writes reads back every field of the
      call, both TSIs included, and names the originator by its TSI. */
  lemma CticnRoundTrip(fs: seq<string>)
    requires CticnShaped(fs)
    ensures ParseCticn("+CTICN: " + Join(fs)) == Parsed(CallOf(fs), fs[4])
  {
    var line := "+CTICN: " + Join(fs);
    CticnCommaFree(fs);
    assert |line| >= 65 by {
      JoinLongTwo(fs, 4, 11);
    }
    assert EraseFront(line, 8) == Join(fs);
    var r := ReadFields(Join(fs), 12);
    assert r == Fields(fs[..12], fs[12]) by {
      ReadJoin(fs, 12);
      assert fs[12..] == [fs[12]];
    }
    assert DecodeCticn(r) == Parsed(CallOf(fs), fs[4]) by {
      DecodeCticnFields(fs, r);
    }
  }

  lemma CticnCommaFree(fs: seq<string>)
    requires CticnShaped(fs)
    ensures CommaFree(fs)
  {
    forall k | 0 <= k < 13 ensures ',' !in fs[k] {
      if k == 4 || k == 11 {
        SplitDigits(fs[k]);
      } else {
        NumeralRead(fs[k]);
      }
    }
  }

  /** Fields read from a well-formed line decode to the call they stand for. */
  lemma DecodeCticnFields(fs: seq<string>, r: Fields)
    requires CticnShaped(fs) && r == Fields(fs[..12], fs[12])
    ensures DecodeCticn(r) == Parsed(CallOf(fs), fs[4])
  {
    forall k | 0 <= k < 13 && k != 4 && k != 11 ensures Atoi(fs[k]) == DecimalValue(fs[k]) {
      NumeralRead(fs[k]);
    }
    SplitDigits(fs[4]);
    SplitDigits(fs[11]);
  }

  // ---------------------------------------------------------------------
  // +CMGS (handleCmgs)
  // ---------------------------------------------------------------------

  /** SDS instance, SDS status and message reference of a +CMGS answer. */
  datatype Cmgs = Cmgs(instance: int, status: int, reference: int)

  /** "+CMGS: " (7 characters) is erased from the front when it occurs in
      the line, then three values are read. */
  function ParseCmgs(m: string): Cmgs
  {
    ReadCmgs(if Contains(m, "+CMGS: ") then EraseFront(m, 7) else m)
  }

  function ReadCmgs(body: string): Cmgs
  {
    var r := ReadFields(body, 3);
    Cmgs(Atoi(r.values[0]), Atoi(r.values[1]), Atoi(r.values[2]))
  }

  /** Reading a comma-free field again and again gives it each time. */
  lemma {:induction false} ReadRepeated(x: string, n: nat)
    requires NextStr(x) == Field(x, x)
    ensures ReadFields(x, n) == Fields(seq(n, _ => x), x)
    decreases n
  {
    if n > 0 {
      ReadRepeated(x, n - 1);
      assert [x] + seq(n - 1, _ => x) == seq(n, _ => x);
    }
  }

  /** The marker at the front of a line is found. */
  lemma PrefixContains(p: string, x: string)
    ensures Contains(p + x, p)
    ensures EraseFront(p + x, |p|) == x
  {
    assert OccursAt(p + x, p, 0);
    assert (p + x)[|p|..] == x;
  }

  /** A full +CMGS answer is read back field by field. */
  lemma CmgsRoundTrip(instance: string, status: string, reference: string)
    requires Numeral(instance) && Numeral(status) && Numeral(reference)
    ensures ParseCmgs("+CMGS: " + Join([instance, status, reference]))
      == Cmgs(DecimalValue(instance), DecimalValue(status), DecimalValue(reference))
  {
    var fs := [instance, status, reference];
    assert CommaFree(fs) by {
      NumeralCommaFree(instance);
      NumeralCommaFree(status);
      NumeralCommaFree(reference);
    }
    assert ParseCmgs("+CMGS: " + Join(fs)) == ReadCmgs(Join(fs)) by {
      PrefixContains("+CMGS: ", Join(fs));
    }
    ReadCmgsJoin(fs);
    NumeralRead(instance);
    NumeralRead(status);
    NumeralRead(reference);
  }

  lemma ReadCmgsJoin(fs: seq<string>)
    requires |fs| == 3 && CommaFree(fs)
    ensures ReadCmgs(Join(fs)) == Cmgs(Atoi(fs[0]), Atoi(fs[1]), Atoi(fs[2]))
  {
    ReadJoinAll(fs);
  }

  /** The short answer "+CMGS: <instance>" carries one value; the reads that
      follow find no comma and read that value again, so the status and the
      reference equal the instance. */
  lemma CmgsInstanceOnly(x: string)
    requires Numeral(x)
    ensures ParseCmgs("+CMGS: " + x) == Cmgs(DecimalValue(x), DecimalValue(x), DecimalValue(x))
  {
    NumeralRead(x);
    PrefixContains("+CMGS: ", x);
    NextStrLast(x);
    ReadRepeated(x, 3);
  }

  // ---------------------------------------------------------------------
  // +CTDGR (handleCtdgr)
  // ---------------------------------------------------------------------

  /** A DMO gateway or repeater report. */
  datatype Ctdgr = Ctdgr(dmct: int, issi: int, mni: string, state: int)

  function CountChar(s: string, c: char): nat
  {
    if s == [] then 0 else (if s[0] == c then 1 else 0) + CountChar(s[1..], c)
  }

  /** "+CTDGR: " (8 characters) is erased and the report is read only when
      the rest holds exactly three commas. */
  function ParseCtdgr(m: string): (r: Option<Ctdgr>)
    ensures r.Some? <==> CountChar(EraseFront(m, 8), ',') == 3
  {
    var body := EraseFront(m, 8);
    if CountChar(body, ',') == 3 then Some(ReadCtdgr(body)) else None
  }

  function ReadCtdgr(body: string): Ctdgr
  {
    var r := ReadFields(body, 4);
    Ctdgr(Atoi(r.values[0]), Atoi(r.values[1]), r.values[2], Atoi(r.values[3]))
  }

  lemma {:induction false} CountConcat(a: string, b: string, c: char)
    ensures CountChar(a + b, c) == CountChar(a, c) + CountChar(b, c)
    decreases |a|
  {
    if a != [] {
      assert (a + b)[1..] == a[1..] + b;
      CountConcat(a[1..], b, c);
    } else {
      assert a + b == b;
    }
  }

  lemma {:induction false} CountAbsent(s: string, c: char)
    requires c !in s
    ensures CountChar(s, c) == 0
    decreases |s|
  {
    if s != [] {
      CountAbsent(s[1..], c);
    }
  }

  /** A joined line of comma-free fields holds one comma fewer than fields. */
  lemma {:induction false} CountJoin(fs: seq<string>)
    requires |fs| >= 1 && CommaFree(fs)
    ensures CountChar(Join(fs), ',') == |fs| - 1
    decreases |fs|
  {
    CountAbsent(fs[0], ',');
    if |fs| > 1 {
      CountJoin(fs[1..]);
      CountConcat(fs[0] + ",", Join(fs[1..]), ',');
      CountConcat(fs[0], ",", ',');
      assert CountChar(",", ',') == 1;
    }
  }

  /** A report with a comma-free MNI is read back. */
  lemma CtdgrRoundTrip(dmct: string, issi: string, mni: string, state: string)
    requires Numeral(dmct) && Numeral(issi) && Numeral(state) && ',' !in mni
    ensures ParseCtdgr("+CTDGR: " + Join([dmct, issi, mni, state]))
      == Some(Ctdgr(DecimalValue(dmct), DecimalValue(issi), mni, DecimalValue(state)))
  {
    var fs := [dmct, issi, mni, state];
    assert CommaFree(fs) by {
      NumeralCommaFree(dmct);
      NumeralCommaFree(issi);
      NumeralCommaFree(state);
    }
    var body := Join(fs);
    assert EraseFront("+CTDGR: " + body, 8) == body by {
      PrefixContains("+CTDGR: ", body);
    }
    assert ParseCtdgr("+CTDGR: " + body) == Some(ReadCtdgr(body)) by {
      CountJoin(fs);
    }
    ReadCtdgrJoin(fs);
    NumeralRead(dmct);
    NumeralRead(issi);
    NumeralRead(state);
  }

  lemma ReadCtdgrJoin(fs: seq<string>)
    requires |fs| == 4 && CommaFree(fs)
    ensures ReadCtdgr(Join(fs)) == Ctdgr(Atoi(fs[0]), Atoi(fs[1]), fs[2], Atoi(fs[3]))
  {
    ReadJoinAll(fs);
  }

  // ---------------------------------------------------------------------
  // +CTGS, +CLVL, +CTOM, +CTCR
  // ---------------------------------------------------------------------

  /** handleCtgs: when "+CTGS: " occurs anywhere in the line the first 7
      characters are erased. */
  function Ctgs(m: string): string
  {
    if Contains(m, "+CTGS: ") then EraseFront(m, 7) else m
  }

  /** The group list of a +CTGS answer is what follows the marker. */
  lemma CtgsRoundTrip(groups: string)
    ensures Ctgs("+CTGS: " + groups) == groups
  {
    PrefixContains("+CTGS: ", groups);
  }

  /** handleClvl: the audio level, the first value after "+CLVL: ". */
  function ParseClvl(m: string): int
  {
    var body := if Contains(m, "+CLVL: ") then EraseFront(m, 7) else m;
    NextVal(body).value
  }

  lemma ClvlRoundTrip(level: string)
    requires Numeral(level)
    ensures ParseClvl("+CLVL: " + level) == DecimalValue(level)
  {
    NumeralRead(level);
    PrefixContains("+CLVL: ", level);
    NextStrLast(level);
  }

  /** getAiMode: a line longer than 6 characters gives atoi of what follows
      its first 6; a shorter one gives nothing. */
  function AiMode(m: string): (r: Option<int>)
    ensures r.None? <==> |m| <= 6
  {
    if |m| > 6 then Some(Atoi(m[6..])) else None
  }

  /** The +CTOM answer the classifier accepts ("+CTOM: " and one digit) gives
      that digit: erasing 6 characters leaves the blank, which atoi skips. */
  lemma AiModeOfCtom(d: char)
    requires IsDigit(d)
    ensures AiMode("+CTOM: " + [d]) == Some(DigitValue(d))
  {
    var m := "+CTOM: " + [d];
    assert m[6..] == " " + [d];
    AtoiBlankDigit(d);
  }

  /** atoi skips the blank before a single digit. */
  lemma AtoiBlankDigit(d: char)
    requires IsDigit(d)
    ensures Atoi(" " + [d]) == DigitValue(d)
  {
    var t := " " + [d];
    assert SkipSpace(t) == [d] by {
      assert t[1..] == [d];
    }
    assert LeadingDigits([d]) == [d];
    assert DecimalValue([d]) == DigitValue(d) by {
      assert [d][..0] == [];
    }
  }

  /** handleCallReleased: the first field is skipped and the disconnect
      cause is the next value. */
  function CallReleaseCause(m: string): int
  {
    NextVal(NextStr(m).rest).value
  }

  lemma CallReleaseRoundTrip(instance: string, cause: string)
    requires ',' !in instance && Numeral(cause)
    ensures CallReleaseCause(instance + "," + cause) == DecimalValue(cause)
  {
    NumeralRead(cause);
    NextStrSplit(instance, cause);
    NextStrLast(cause);
  }

  // ---------------------------------------------------------------------
  // SDS payloads
  // ---------------------------------------------------------------------

  /** handleTextSds: the 8-character header "8204xxxx" is dropped only when
      the message is longer than that. */
  function TextSdsPayload(m: string): (r: string)
    ensures |m| > 8 ==> m == m[..8] + r
    ensures |m| <= 8 ==> r == m
  {
    if |m| > 8 then m[8..] else m
  }

  /** handleSimpleTextSds: the same with the 4-character header "0201". */
  function SimpleTextSdsPayload(m: string): (r: string)
    ensures |m| > 4 ==> m == m[..4] + r
    ensures |m| <= 4 ==> r == m
  {
    if |m| > 4 then m[4..] else m
  }

  /** A text SDS gives back its non-empty text whatever its header. */
  lemma TextSdsRoundTrip(header: string, text: string)
    requires |header| == 8 && text != []
    ensures TextSdsPayload(header + text) == text
  {
    assert (header + text)[8..] == text;
  }

  lemma SimpleTextSdsRoundTrip(header: string, text: string)
    requires |header| == 4 && text != []
    ensures SimpleTextSdsPayload(header + text) == text
  {
    assert (header + text)[4..] == text;
  }

  /** cfmTxtSdsReceived: a text SDS of at least 8 characters is confirmed by
      "821000" followed by its message reference, characters 4 and 5. */
  function ConfirmationOf(m: string): (r: Option<string>)
    ensures r.None? <==> |m| < 8
    ensures r.Some? ==> |r.value| == 8 && r.value[..6] == "821000" && r.value[6..] == m[4..6]
  {
    if |m| < 8 then None else Some("821000" + m[4..6])
  }

  // ---------------------------------------------------------------------
  // SDS pty (sdsPtyReceived)
  // ---------------------------------------------------------------------

  /** An injected line: destination TSI, type field and payload. */
  datatype Injection = Injection(tsi: string, kind: string, message: string)

  /** The last of the `count` bytes (the newline) is dropped; the TSI and the
      type are read as fields and the payload is what is left. */
  function ParseInjection(data: string): Injection
    requires |data| >= 1
  {
    var line := data[..|data| - 1];
    var t := NextStr(line);
    var k := NextStr(t.rest);
    Injection(t.value, k.value, k.rest)
  }

  /** "tsi,type,payload" and a newline is read back, commas in the payload
      included. */
  lemma InjectionRoundTrip(tsi: string, kind: string, message: string, nl: char)
    requires ',' !in tsi && ',' !in kind
    ensures ParseInjection(tsi + "," + kind + "," + message + [nl]) == Injection(tsi, kind, message)
  {
    var data := tsi + "," + kind + "," + message + [nl];
    assert data[..|data| - 1] == tsi + "," + (kind + "," + message);
    NextStrSplit(tsi, kind + "," + message);
    NextStrSplit(kind, message);
  }
}
