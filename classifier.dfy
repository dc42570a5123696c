/** TetraLogic::handleMessage and rmatch: the kind of a line received from the
    PEI. The source keeps its regular expressions in a std::map from pattern
    text to kind and tries them in the map's order, which is ascending byte
    order of the pattern text; the first pattern that matches decides, and a
    line no pattern matches gets the current PEI state back. The POSIX
    expressions are written out as predicates. */
module Classifier {
  import opened CStrings

  /** The PEI answer kinds, and the states (Invalid, Timeout) that only the
      PEI state itself takes. */
  datatype Kind =
    | Ok | Error | Sds | CallBegin | CallReleased | CallConnect
    | TransmissionEnd | TransmissionGrant | TxDemand | TxInterrupt | TxWait
    | MsCnum | OpMode | Cmgs | Cnumf | Ctgs | Ctdgr | Clvl
    | SimpleTextSds | SimpleLipSds | WapProtocol | LipSds | TextSds | AckSds
    | ConcatSds | StateSds | Invalid | Timeout

  /** [0-9A-F] */
  predicate IsUpperHex(c: char)
  {
    '0' <= c <= '9' || 'A' <= c <= 'F'
  }

  /** [8-9A-F] */
  predicate IsHighHex(c: char)
  {
    '8' <= c <= '9' || 'A' <= c <= 'F'
  }

  /** The four shapes of expression the table uses. */
  datatype Pattern =
    | Prefix(text: string)             // ^text
    | PrefixHex(text: string, n: nat)  // ^text[0-9A-F]{n}
    | StateCode                        // ^[8-9A-F][0-9A-F]{3}$
    | PrefixDigitEnd(text: string)     // ^text[0-9]$

  /** regexec with REG_EXTENDED: `^` anchors at the start, `$` at the end,
      and the rest of the line is free unless `$` closes the expression. */
  predicate Matches(line: string, p: Pattern)
  {
    match p
    case Prefix(t) => t <= line
    case PrefixHex(t, n) =>
      t <= line && |t| + n <= |line| &&
      forall i :: |t| <= i < |t| + n ==> IsUpperHex(line[i])
    case StateCode =>
      |line| == 4 && IsHighHex(line[0]) &&
      forall i :: 1 <= i < 4 ==> IsUpperHex(line[i])
    case PrefixDigitEnd(t) =>
      |line| == |t| + 1 && t <= line && IsDigit(line[|t|])
  }

  /** One entry of the table: the expression as written in the source (the
      map key), its meaning, and the kind it stands for. */
  datatype Rule = Rule(key: string, pattern: Pattern, kind: Kind)

  /** The table of handleMessage in the order std::map visits it. */
  const Rules: seq<Rule> := [
    Rule("^02", Prefix("02"), SimpleTextSds),
    Rule("^03", Prefix("03"), SimpleLipSds),
    Rule("^04", Prefix("04"), WapProtocol),
    Rule("^0A[0-9A-F]{20}", PrefixHex("0A", 20), LipSds),
    Rule("^0C", Prefix("0C"), ConcatSds),
    Rule("^8204", Prefix("8204"), TextSds),
    Rule("^821000", Prefix("821000"), AckSds),
    Rule("^OK", Prefix("OK"), Ok),
    Rule("^[8-9A-F][0-9A-F]{3}$", StateCode, StateSds),
    Rule("^\\+CDTXC:", Prefix("+CDTXC:"), TransmissionEnd),
    Rule("^\\+CLVL:", Prefix("+CLVL:"), Clvl),
    Rule("^\\+CME ERROR", Prefix("+CME ERROR"), Error),
    Rule("^\\+CMGS:", Prefix("+CMGS:"), Cmgs),
    Rule("^\\+CNUM:", Prefix("+CNUM:"), MsCnum),
    Rule("^\\+CNUMF:", Prefix("+CNUMF:"), Cnumf),
    Rule("^\\+CTCC:", Prefix("+CTCC:"), CallConnect),
    Rule("^\\+CTCR:", Prefix("+CTCR:"), CallReleased),
    Rule("^\\+CTDGR:", Prefix("+CTDGR:"), Ctdgr),
    Rule("^\\+CTGS:", Prefix("+CTGS:"), Ctgs),
    Rule("^\\+CTICN:", Prefix("+CTICN:"), CallBegin),
    Rule("^\\+CTOM: [0-9]$", PrefixDigitEnd("+CTOM: "), OpMode),
    Rule("^\\+CTSDSR:", Prefix("+CTSDSR:"), Sds),
    Rule("^\\+CTXD:", Prefix("+CTXD:"), TxDemand),
    Rule("^\\+CTXG:", Prefix("+CTXG:"), TransmissionGrant),
    Rule("^\\+CTXI:", Prefix("+CTXI:"), TxInterrupt),
    Rule("^\\+CTXW:", Prefix("+CTXW:"), TxWait)
  ]

  /** `a` and `b` agree on their first `k` characters, and there `a` ends
      first or has the smaller character. */
  predicate ByteLessAt(a: string, b: string, k: nat)
  {
    k <= |a| && k <= |b| && a[..k] == b[..k] &&
    ((k < |a| && k < |b| && a[k] < b[k]) || k == |a| < |b|)
  }

  /** std::string's operator<: byte-wise lexicographic order. */
  ghost predicate ByteLess(a: string, b: string)
  {
    exists k: nat :: ByteLessAt(a, b, k)
  }

  /** The table lists the keys in strictly ascending byte order, the order in
      which std::map iterates them. */
  lemma RulesInKeyOrder()
    ensures forall i :: 0 <= i < |Rules| - 1 ==> ByteLess(Rules[i].key, Rules[i + 1].key)
  {
    KeysFrom0();
    KeysFrom2();
    KeysFrom4();
    KeysFrom6();
    KeysFrom8();
    KeysFrom10();
    KeysFrom12();
    KeysFrom14();
    KeysFrom16();
    KeysFrom18();
    KeysFrom20();
    KeysFrom22();
    KeysFrom24();
  }

  /** Key pairs 0 and 1 ascend: each pair is shown by the index at which
      its two keys first differ. */
  lemma KeysFrom0()
    ensures forall i :: 0 <= i < 2 ==> ByteLess(Rules[i].key, Rules[i + 1].key)
  {
    forall i | 0 <= i < 2 ensures ByteLess(Rules[i].key, Rules[i + 1].key) {
      if i == 0 {
        assert ByteLessAt(Rules[0].key, Rules[1].key, 2);
      } else {
        assert ByteLessAt(Rules[1].key, Rules[2].key, 2);
      }
    }
  }

  /** Key pairs 2 and 3 ascend. */
  lemma KeysFrom2()
    ensures forall i :: 2 <= i < 4 ==> ByteLess(Rules[i].key, Rules[i + 1].key)
  {
    forall i | 2 <= i < 4 ensures ByteLess(Rules[i].key, Rules[i + 1].key) {
      if i == 2 {
        assert ByteLessAt(Rules[2].key, Rules[3].key, 2);
      } else {
        assert ByteLessAt(Rules[3].key, Rules[4].key, 2);
      }
    }
  }

  /** Key pairs 4 and 5 ascend. */
  lemma KeysFrom4()
    ensures forall i :: 4 <= i < 6 ==> ByteLess(Rules[i].key, Rules[i + 1].key)
  {
    forall i | 4 <= i < 6 ensures ByteLess(Rules[i].key, Rules[i + 1].key) {
      if i == 4 {
        assert ByteLessAt(Rules[4].key, Rules[5].key, 1);
      } else {
        assert ByteLessAt(Rules[5].key, Rules[6].key, 3);
      }
    }
  }

  /** Key pairs 6 and 7 ascend. */
  lemma KeysFrom6()
    ensures forall i :: 6 <= i < 8 ==> ByteLess(Rules[i].key, Rules[i + 1].key)
  {
    forall i | 6 <= i < 8 ensures ByteLess(Rules[i].key, Rules[i + 1].key) {
      if i == 6 {
        assert ByteLessAt(Rules[6].key, Rules[7].key, 1);
      } else {
        assert ByteLessAt(Rules[7].key, Rules[8].key, 1);
      }
    }
  }

  /** Key pairs 8 and 9 ascend. */
  lemma KeysFrom8()
    ensures forall i :: 8 <= i < 10 ==> ByteLess(Rules[i].key, Rules[i + 1].key)
  {
    forall i | 8 <= i < 10 ensures ByteLess(Rules[i].key, Rules[i + 1].key) {
      if i == 8 {
        assert ByteLessAt(Rules[8].key, Rules[9].key, 1);
      } else {
        assert ByteLessAt(Rules[9].key, Rules[10].key, 4);
      }
    }
  }

  /** Key pairs 10 and 11 ascend. */
  lemma KeysFrom10()
    ensures forall i :: 10 <= i < 12 ==> ByteLess(Rules[i].key, Rules[i + 1].key)
  {
    forall i | 10 <= i < 12 ensures ByteLess(Rules[i].key, Rules[i + 1].key) {
      if i == 10 {
        assert ByteLessAt(Rules[10].key, Rules[11].key, 4);
      } else {
        assert ByteLessAt(Rules[11].key, Rules[12].key, 5);
      }
    }
  }

  /** Key pairs 12 and 13 ascend. */
  lemma KeysFrom12()
    ensures forall i :: 12 <= i < 14 ==> ByteLess(Rules[i].key, Rules[i + 1].key)
  {
    forall i | 12 <= i < 14 ensures ByteLess(Rules[i].key, Rules[i + 1].key) {
      if i == 12 {
        assert ByteLessAt(Rules[12].key, Rules[13].key, 4);
      } else {
        assert ByteLessAt(Rules[13].key, Rules[14].key, 7);
      }
    }
  }

  /** Key pairs 14 and 15 ascend. */
  lemma KeysFrom14()
    ensures forall i :: 14 <= i < 16 ==> ByteLess(Rules[i].key, Rules[i + 1].key)
  {
    forall i | 14 <= i < 16 ensures ByteLess(Rules[i].key, Rules[i + 1].key) {
      if i == 14 {
        assert ByteLessAt(Rules[14].key, Rules[15].key, 4);
      } else {
        assert ByteLessAt(Rules[15].key, Rules[16].key, 6);
      }
    }
  }

  /** Key pairs 16 and 17 ascend. */
  lemma KeysFrom16()
    ensures forall i :: 16 <= i < 18 ==> ByteLess(Rules[i].key, Rules[i + 1].key)
  {
    forall i | 16 <= i < 18 ensures ByteLess(Rules[i].key, Rules[i + 1].key) {
      if i == 16 {
        assert ByteLessAt(Rules[16].key, Rules[17].key, 5);
      } else {
        assert ByteLessAt(Rules[17].key, Rules[18].key, 5);
      }
    }
  }

  /** Key pairs 18 and 19 ascend. */
  lemma KeysFrom18()
    ensures forall i :: 18 <= i < 20 ==> ByteLess(Rules[i].key, Rules[i + 1].key)
  {
    forall i | 18 <= i < 20 ensures ByteLess(Rules[i].key, Rules[i + 1].key) {
      if i == 18 {
        assert ByteLessAt(Rules[18].key, Rules[19].key, 5);
      } else {
        assert ByteLessAt(Rules[19].key, Rules[20].key, 5);
      }
    }
  }

  /** Key pairs 20 and 21 ascend. */
  lemma KeysFrom20()
    ensures forall i :: 20 <= i < 22 ==> ByteLess(Rules[i].key, Rules[i + 1].key)
  {
    forall i | 20 <= i < 22 ensures ByteLess(Rules[i].key, Rules[i + 1].key) {
      if i == 20 {
        assert ByteLessAt(Rules[20].key, Rules[21].key, 5);
      } else {
        assert ByteLessAt(Rules[21].key, Rules[22].key, 5);
      }
    }
  }

  /** Key pairs 22 and 23 ascend. */
  lemma KeysFrom22()
    ensures forall i :: 22 <= i < 24 ==> ByteLess(Rules[i].key, Rules[i + 1].key)
  {
    forall i | 22 <= i < 24 ensures ByteLess(Rules[i].key, Rules[i + 1].key) {
      if i == 22 {
        assert ByteLessAt(Rules[22].key, Rules[23].key, 6);
      } else {
        assert ByteLessAt(Rules[23].key, Rules[24].key, 6);
      }
    }
  }

  /** The last key pair ascends. */
  lemma KeysFrom24()
    ensures forall i :: 24 <= i < 25 ==> ByteLess(Rules[i].key, Rules[i + 1].key)
  {
    forall i | 24 <= i < 25 ensures ByteLess(Rules[i].key, Rules[i + 1].key) {
      assert ByteLessAt(Rules[24].key, Rules[25].key, 6);
    }
  }

  /** Rule `i` is the first of `rules` the line matches. */
  predicate FirstMatch(line: string, rules: seq<Rule>, i: int)
  {
    0 <= i < |rules| && Matches(line, rules[i].pattern) &&
    forall j :: 0 <= j < i ==> !Matches(line, rules[j].pattern)
  }

  /** The line matches none of `rules[from..]`. */
  predicate NoMatchFrom(line: string, rules: seq<Rule>, from: nat)
  {
    forall j :: from <= j < |rules| ==> !Matches(line, rules[j].pattern)
  }

  /** The walk of the table from entry `from` on: the kind of the first
      entry that matches, or `fallback`. Its properties are the lemmas
      below, so that the table is not unfolded where they are used. */
  function FirstKind(line: string, rules: seq<Rule>, from: nat, fallback: Kind): Kind
    requires from <= |rules|
    decreases |rules| - from
  {
    if from == |rules| then fallback
    else if Matches(line, rules[from].pattern) then rules[from].kind
    else FirstKind(line, rules, from + 1, fallback)
  }

  /** The walk stops at the first entry that matches. */
  lemma {:induction false} FirstKindAt(line: string, rules: seq<Rule>, from: nat, fallback: Kind, i: int)
    requires from <= i && FirstMatch(line, rules, i)
    ensures FirstKind(line, rules, from, fallback) == rules[i].kind
    decreases |rules| - from
  {
    if from < i {
      FirstKindAt(line, rules, from + 1, fallback, i);
    }
  }

  /** The walk falls through when no entry from `from` on matches. */
  lemma {:induction false} FirstKindNone(line: string, rules: seq<Rule>, from: nat, fallback: Kind)
    requires from <= |rules| && NoMatchFrom(line, rules, from)
    ensures FirstKind(line, rules, from, fallback) == fallback
    decreases |rules| - from
  {
    if from < |rules| {
      FirstKindNone(line, rules, from + 1, fallback);
    }
  }

  /** The walk either stops at the first match or falls through. */
  lemma {:induction false} FirstKindCases(line: string, rules: seq<Rule>, from: nat, fallback: Kind)
    requires from <= |rules|
    requires forall j :: 0 <= j < from ==> !Matches(line, rules[j].pattern)
    ensures (exists i :: FirstMatch(line, rules, i) && FirstKind(line, rules, from, fallback) == rules[i].kind) ||
            (NoMatchFrom(line, rules, from) && FirstKind(line, rules, from, fallback) == fallback)
    decreases |rules| - from
  {
    if from < |rules| {
      if Matches(line, rules[from].pattern) {
        assert FirstMatch(line, rules, from);
      } else {
        FirstKindCases(line, rules, from + 1, fallback);
      }
    }
  }

  /** handleMessage: the walk of the whole table with the PEI state as the
      fallback. */
  function HandleMessage(line: string, peistate: Kind): Kind
  {
    FirstKind(line, Rules, 0, peistate)
  }

  /** The first entry that matches, in key order, decides the kind. */
  lemma HandleMessageFirst(line: string, peistate: Kind, i: int)
    requires FirstMatch(line, Rules, i)
    ensures HandleMessage(line, peistate) == Rules[i].kind
  {
    FirstKindAt(line, Rules, 0, peistate, i);
  }

  /** A line that matches no entry leaves the PEI state as the answer. */
  lemma HandleMessageUnmatched(line: string, peistate: Kind)
    requires NoMatchFrom(line, Rules, 0)
    ensures HandleMessage(line, peistate) == peistate
  {
    FirstKindNone(line, Rules, 0, peistate);
  }

  /** The answer is the kind of the first matching entry or the PEI state. */
  lemma HandleMessageCases(line: string, peistate: Kind)
    ensures (exists i :: FirstMatch(line, Rules, i) && HandleMessage(line, peistate) == Rules[i].kind) ||
            (NoMatchFrom(line, Rules, 0) && HandleMessage(line, peistate) == peistate)
  {
    FirstKindCases(line, Rules, 0, peistate);
  }

  /** A four-character line of upper-case hex digits with a leading 8 to F is
      a state SDS, except "8204", which the earlier key ^8204 claims as a
      text SDS; nothing else is a state SDS (unless the PEI state already is
      one and the line matches nothing). */
  lemma StateSdsExactly(line: string, peistate: Kind)
    requires peistate != StateSds
    ensures HandleMessage(line, peistate) == StateSds <==>
            Matches(line, StateCode) && line != "8204"
  {
    if Matches(line, StateCode) && line != "8204" {
      StateCodeIsStateSds(line, peistate);
    }
    if HandleMessage(line, peistate) == StateSds {
      StateSdsIsStateCode(line, peistate);
    }
  }

  lemma StateCodeIsStateSds(line: string, peistate: Kind)
    requires Matches(line, StateCode) && line != "8204"
    ensures HandleMessage(line, peistate) == StateSds
  {
    StateCodeFirst(line);
    assert Rules[8].kind == StateSds;
    HandleMessageFirst(line, peistate, 8);
  }

  lemma StateSdsIsStateCode(line: string, peistate: Kind)
    requires peistate != StateSds
    requires HandleMessage(line, peistate) == StateSds
    ensures Matches(line, StateCode) && line != "8204"
  {
    HandleMessageCases(line, peistate);
    var i :| FirstMatch(line, Rules, i) && Rules[i].kind == StateSds;
    FirstStateSds(line, i);
  }

  /** A line whose first matching entry stands for a state SDS is a state
      code other than "8204". */
  lemma FirstStateSds(line: string, i: int)
    requires FirstMatch(line, Rules, i) && Rules[i].kind == StateSds
    ensures Matches(line, StateCode) && line != "8204"
  {
    StateSdsRule();
    StateSdsNot8204(line);
  }

  /** No key before the state-code expression matches a state code other
      than "8204". */
  lemma StateCodeFirst(line: string)
    requires Matches(line, StateCode) && line != "8204"
    ensures FirstMatch(line, Rules, 8)
  {
    assert !IsHighHex('0') && !IsHighHex('O');
  }

  /** Only entry 8 of the table stands for a state SDS. */
  lemma StateSdsRule()
    ensures forall i :: 0 <= i < |Rules| && Rules[i].kind == StateSds ==> i == 8
  {
  }

  /** A line that reaches the state-code entry is not "8204". */
  lemma StateSdsNot8204(line: string)
    requires FirstMatch(line, Rules, 8)
    ensures line != "8204"
  {
    assert !Matches(line, Rules[5].pattern);
  }

  /** A line starting with "8204" is a text SDS. */
  lemma TextSdsFirst(line: string, peistate: Kind)
    requires "8204" <= line
    ensures HandleMessage(line, peistate) == TextSds
  {
    assert line[0] == '8';
    assert FirstMatch(line, Rules, 5);
    assert Rules[5].kind == TextSds;
    HandleMessageFirst(line, peistate, 5);
  }

  /** A line starting with "821000" is an SDS acknowledgement, although it
      also starts like the hex lines before it. */
  lemma AckSdsFirst(line: string, peistate: Kind)
    requires "821000" <= line
    ensures HandleMessage(line, peistate) == AckSds
  {
    assert line[0] == '8' && line[2] == '1';
    assert FirstMatch(line, Rules, 6);
    assert Rules[6].kind == AckSds;
    HandleMessageFirst(line, peistate, 6);
  }

  /** A line starting with "OK" is an OK answer. */
  lemma OkFirst(line: string, peistate: Kind)
    requires "OK" <= line
    ensures HandleMessage(line, peistate) == Ok
  {
    assert line[0] == 'O';
    assert FirstMatch(line, Rules, 7);
    assert Rules[7].kind == Ok;
    HandleMessageFirst(line, peistate, 7);
  }

  /** A line starting with "+CME ERROR" is an ERROR answer. */
  lemma ErrorFirst(line: string, peistate: Kind)
    requires "+CME ERROR" <= line
    ensures HandleMessage(line, peistate) == Error
  {
    assert line[0] == '+' && line[2] == 'M' && line[3] == 'E';
    RuleLeads();
    forall j | 0 <= j < 11 ensures !Matches(line, Rules[j].pattern) {
      if j < 8 {
        assert line[0] !in "08O";
      }
    }
    assert FirstMatch(line, Rules, 11);
    assert Rules[11].kind == Error;
    HandleMessageFirst(line, peistate, 11);
  }

  /** Every entry but the state code is anchored on a literal text that
      starts with '0', '8', 'O' or '+'. */
  lemma RuleLeads()
    ensures forall j :: 0 <= j < |Rules| && j != 8 ==>
      !Rules[j].pattern.StateCode? && |Rules[j].pattern.text| > 0 &&
      Rules[j].pattern.text[0] in "08O+"
  {
  }

  /** A bare "ERROR" answer matches no key (only "+CME ERROR" does), so it
      leaves the PEI state as it was. */
  lemma BareErrorKeepsState(peistate: Kind)
    ensures HandleMessage("ERROR", peistate) == peistate
  {
    BareErrorUnmatched();
    HandleMessageUnmatched("ERROR", peistate);
  }

  lemma BareErrorUnmatched()
    ensures NoMatchFrom("ERROR", Rules, 0)
  {
    var line := "ERROR";
    RuleLeads();
    forall j | 0 <= j < |Rules| ensures !Matches(line, Rules[j].pattern) {
      if j != 8 {
        assert line[0] !in "08O+";
      }
    }
  }

  /** A line starting with "+CMGS:" is a CMGS answer. */
  lemma CmgsFirst(line: string, peistate: Kind)
    requires "+CMGS:" <= line
    ensures HandleMessage(line, peistate) == Cmgs
  {
    assert line[0] == '+' && line[2] == 'M' && line[3] == 'G';
    RuleLeads();
    forall j | 0 <= j < 12 ensures !Matches(line, Rules[j].pattern) {
      if j < 8 {
        assert line[0] !in "08O";
      }
    }
    assert FirstMatch(line, Rules, 12);
    assert Rules[12].kind == Cmgs;
    HandleMessageFirst(line, peistate, 12);
  }

  /** Only entry 12 of the table stands for a CMGS answer. */
  lemma CmgsRule()
    ensures forall i :: 0 <= i < |Rules| && Rules[i].kind == Cmgs ==> i == 12
  {
  }

  /** A line whose first matching entry stands for a CMGS answer starts
      with "+CMGS:". */
  lemma FirstCmgs(line: string, i: int)
    requires FirstMatch(line, Rules, i) && Rules[i].kind == Cmgs
    ensures "+CMGS:" <= line
  {
    CmgsRule();
    assert Rules[12].pattern == Prefix("+CMGS:");
  }

  /** Unless the PEI state is already Cmgs, only a line starting with
      "+CMGS:" is a CMGS answer. */
  lemma CmgsExactly(line: string, peistate: Kind)
    requires peistate != Cmgs
    ensures HandleMessage(line, peistate) == Cmgs <==> "+CMGS:" <= line
  {
    if "+CMGS:" <= line {
      CmgsFirst(line, peistate);
    }
    if HandleMessage(line, peistate) == Cmgs {
      HandleMessageCases(line, peistate);
      var i :| FirstMatch(line, Rules, i) && HandleMessage(line, peistate) == Rules[i].kind;
      FirstCmgs(line, i);
    }
  }
}
