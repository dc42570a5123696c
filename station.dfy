/** The state machine of TetraLogic as functions from one state to the next:
    the PEI initialisation, the keep-alive timers, the call tracker and the
    outbound SDS queue, driven by lines from the PEI, timer expiries and
    SDS producers. The class TetraLogic.TetraLogic holds the same state in
    fields and its methods are proved to make exactly these steps. */
module Station {
  import opened Basics
  import opened CStrings
  import opened Lines
  import Classifier
  import opened Identity
  import opened Parsers
  import opened Outbox

  // ---------------------------------------------------------------------
  // State
  // ---------------------------------------------------------------------

  /** What the initialisation of the PEI is doing. */
  datatype PeiRequest = AtCmdWait | Init | InitComplete | CheckAt

  /** A radio user as handleCallBegin and handleCallReleased keep it. */
  datatype User = User(call: string, name: string, comment: string,
                       aprsSym: char, aprsTab: char, lastActivity: int)

  /** A default-constructed User: empty strings, and zero for the
      characters and the time. */
  const BlankUser := User("", "", "", '\0', '\0', 0)

  /** The QSO in progress: who opened it, when, and the call signs heard. */
  datatype QsoInfo = QsoInfo(tsi: string, start: int, stop: int, members: seq<string>)

  /** A DMO gateway or repeater seen by the radio. */
  datatype DmoRpt = DmoRpt(issi: int, mni: string, state: int)

  /** The events handed to the event handler (processEvent). */
  datatype Event =
    | Startup | PeiInitFinished | PeiComTimeout
    | GroupCallInit(gssi: int) | GroupCallBegin(oIssi: int, dIssi: int) | GroupCallEnd
    | TxGrant | OutOfRangeEnd(cause: int) | CallEnd(cause: int)
    | DmoGwRpt(dmct: int, issi: int, mni: string, state: int)
    | AudioLevel(level: int) | TetraMode(mode: int)

  /** The configuration the steps read, and the SDS encoders of the TETRA
      helper library (getISSI, createSDS, createCfmSDS), which are not part
      of this model and are taken as given functions. */
  datatype Config = Config(
    mcc: string, mnc: string, issi: string, gssi: int, infosds: string,
    aprsSym: char, aprsTab: char, sdsOnActivity: map<int, string>,
    issiOf: string -> string,
    createSds: (string, string) -> string,
    createCfmSds: (string, string) -> string)

  /** sdsQueue, pending_sds, cmgs_received, last_sdsinstance and new_sds. */
  datatype Outbound = Outbound(queue: seq<Entry>, pending: Sds, cmgsReceived: bool,
                               lastInstance: int, newSds: bool)

  /** peistate, peirequest, m_cmds, and whether the command timer and the
      break-command timer are armed. */
  datatype Pei = Pei(state: Classifier.Kind, request: PeiRequest, cmds: seq<string>,
                     comTimer: bool, breakTimer: bool)

  /** userdata, callinfo, Qso and dmo_rep_gw. */
  datatype Calls = Calls(userdata: map<string, User>, callinfo: map<int, CallInfo>,
                         qso: QsoInfo, dmoRepGw: map<int, DmoRpt>)

  /** inTransmission, talkgroup_up, the squelch of the TETRA modem and
      whether the transmitter is on. */
  datatype Radio = Radio(inTransmission: bool, talkgroupUp: bool, sqlOpen: bool, transmitting: bool)

  /** What went to the PEI, what went to the event handler, and whether a
      handler threw std::out_of_range, which nothing catches. */
  datatype Output = Output(written: seq<string>, events: seq<Event>, aborted: bool)

  /** The member state of TetraLogic that the PEI handling reads and
      writes (all but the receive buffer). */
  datatype State = State(sds: Outbound, pei: Pei, calls: Calls, radio: Radio, out: Output)

  predicate Live(st: State)
  {
    !st.out.aborted
  }

  function Emit(st: State, e: Event): State
  {
    st.(out := st.out.(events := st.out.events + [e]))
  }

  function Abort(st: State): State
  {
    st.(out := st.out.(aborted := true))
  }

  /** No call sign twice. */
  predicate NoDuplicates(s: seq<string>)
  {
    forall i, j :: 0 <= i < j < |s| ==> s[i] != s[j]
  }

  /** The PEI state, the request and the command list are as they were. */
  predicate SamePei(a: State, b: State)
  {
    a.pei.state == b.pei.state && a.pei.request == b.pei.request && a.pei.cmds == b.pei.cmds
  }

  /** The SDS types the producers set. Only the comparison with ACK_SDS in
      checkSds depends on them; the values of TEXT and RAW and of an unset
      type are stand-ins, distinct from AckSds. */
  const UnsetType: int := 0
  const TextType: int := 1
  const RawType: int := 2

  /** SDS_SEND_FAILED, the CMGS status the comment of handleCmgs gives as 5
      (4 is SDS_SEND_OK). */
  const SdsSendFailed: int := 5

  /** A default-constructed Sds: empty strings, zero numbers and the first
      direction. */
  const BlankSds := Sds("", "", Incoming, UnsetType, 0, 0, "")

  /** The state after construction: no SDS waiting and sending allowed, no
      commands, nothing received or sent. The PEI state, the request and
      the last SDS instance are not set by the constructor and are taken
      as given. */
  function Initial(peistate: Classifier.Kind, request: PeiRequest, lastInstance: int): (r: State)
    ensures Live(r) && Ordered(r.sds.queue) && r.sds.cmgsReceived && !r.sds.newSds
    ensures NoDuplicates(r.calls.qso.members)
  {
    State(Outbound([], BlankSds, true, lastInstance, false),
          Pei(peistate, request, [], false, false),
          Calls(map[], map[], QsoInfo("", 0, 0, []), map[]),
          Radio(false, false, false, false),
          Output([], [], false))
  }

  // ---------------------------------------------------------------------
  // sendPei, squelchOpen
  // ---------------------------------------------------------------------

  /** The command as written to the PEI: a carriage return is added unless
      the command already ends with Ctrl-Z, which closes an SDS. */
  function Terminated(cmd: string): (r: string)
    requires cmd != []
    ensures |cmd| <= |r| <= |cmd| + 1 && r[..|cmd|] == cmd
    ensures r[|r| - 1] == CtrlZ || r[|r| - 1] == '\r'
    ensures |r| == |cmd| <==> cmd[|cmd| - 1] == CtrlZ
    ensures cmd[|cmd| - 1] == CtrlZ ==> r == cmd
    ensures cmd[|cmd| - 1] != CtrlZ ==> r == cmd + "\r"
  {
    if cmd[|cmd| - 1] != CtrlZ then cmd + "\r" else cmd
  }

  /** sendPei: the terminated command is written and the command timer is
      armed. cmd.at(length - 1) throws on an empty command. */
  function SendPei(st: State, cmd: string): (r: State)
    requires Live(st)
    ensures cmd == [] ==> !Live(r)
    ensures cmd != [] ==> Live(r) && r.out.written == st.out.written + [Terminated(cmd)] && r.pei.comTimer
    ensures r.sds == st.sds && r.calls == st.calls && r.radio == st.radio && r.out.events == st.out.events
    ensures r.pei.state == st.pei.state && r.pei.request == st.pei.request && r.pei.cmds == st.pei.cmds
    ensures r.pei.breakTimer == st.pei.breakTimer
  {
    if cmd == [] then Abort(st)
    else st.(out := st.out.(written := st.out.written + [Terminated(cmd)]),
             pei := st.pei.(comTimer := true))
  }

  /** squelchOpen: ignored while the transmitter is on. */
  function SquelchOpen(st: State, isOpen: bool): State
  {
    if st.radio.transmitting then st else st.(radio := st.radio.(sqlOpen := isOpen))
  }

  // ---------------------------------------------------------------------
  // initPei
  // ---------------------------------------------------------------------

  const CnumfQuery: string := "AT+CNUMF?"

  /** initPei: with commands left, the first one is sent and removed; with
      none left during INIT, the radio is asked for its identity and the
      initialisation is complete. At most one command goes out. */
  function InitPei(st: State): (r: State)
    requires Live(st)
    ensures |st.out.written| <= |r.out.written| <= |st.out.written| + 1
    ensures r.out.written[..|st.out.written|] == st.out.written
    ensures st.pei.cmds != [] && st.pei.cmds[0] != [] ==>
      Live(r) && r.out.written == st.out.written + [Terminated(st.pei.cmds[0])] &&
      r.pei.cmds == st.pei.cmds[1..] && r.pei.request == st.pei.request
    ensures st.pei.cmds == [] ==>
      Live(r) && r.pei.cmds == [] &&
      (r.pei.request == InitComplete <==> st.pei.request == Init || st.pei.request == InitComplete) &&
      (|r.out.written| > |st.out.written| <==> st.pei.request == Init)
    ensures st.pei.cmds == [] && st.pei.request == Init ==>
      r.out.written == st.out.written + [CnumfQuery + "\r"] &&
      r.out.events == st.out.events + [PeiInitFinished]
    ensures st.pei.cmds == [] && st.pei.request != Init ==> r.out == st.out
    ensures r.pei.breakTimer == (st.pei.breakTimer || st.pei.request == AtCmdWait)
    ensures r.sds == st.sds && r.calls == st.calls && r.radio == st.radio && r.pei.state == st.pei.state
  {
    var st1 := if st.pei.request == AtCmdWait then st.(pei := st.pei.(breakTimer := true)) else st;
    if st1.pei.cmds != [] then
      var st2 := SendPei(st1, st1.pei.cmds[0]);
      if st2.out.aborted then st2 else st2.(pei := st2.pei.(cmds := st2.pei.cmds[1..]))
    else if st1.pei.request == Init then
      var st2 := Emit(SendPei(st1, CnumfQuery), PeiInitFinished);
      st2.(pei := st2.pei.(request := InitComplete))
    else st1
  }

  /** initPei called n times in a row, as long as nothing throws. */
  function InitRounds(st: State, n: nat): State
    requires Live(st)
    decreases n
  {
    if n == 0 then st
    else
      var st1 := InitPei(st);
      if st1.out.aborted then st1 else InitRounds(st1, n - 1)
  }

  /** Each command as written to the PEI. */
  function TerminatedAll(cmds: seq<string>): (r: seq<string>)
    requires forall i :: 0 <= i < |cmds| ==> cmds[i] != []
    ensures |r| == |cmds|
    ensures forall i :: 0 <= i < |cmds| ==> r[i] == Terminated(cmds[i])
  {
    if cmds == [] then [] else [Terminated(cmds[0])] + TerminatedAll(cmds[1..])
  }

  /** The initialisation commands go out one per initPei call, in list
      order, and the list is used up. */
  lemma {:induction false} InitPeiInOrder(st: State)
    requires Live(st)
    requires forall i :: 0 <= i < |st.pei.cmds| ==> st.pei.cmds[i] != []
    ensures InitRounds(st, |st.pei.cmds|).out.written == st.out.written + TerminatedAll(st.pei.cmds)
    ensures InitRounds(st, |st.pei.cmds|).pei.cmds == []
    decreases |st.pei.cmds|
  {
    if st.pei.cmds != [] {
      var st1 := InitPei(st);
      assert st1.pei.cmds == st.pei.cmds[1..];
      InitPeiInOrder(st1);
      assert TerminatedAll(st.pei.cmds) == [Terminated(st.pei.cmds[0])] + TerminatedAll(st1.pei.cmds);
      ConcatAssoc(st.out.written, [Terminated(st.pei.cmds[0])], TerminatedAll(st1.pei.cmds));
    }
  }

  // ---------------------------------------------------------------------
  // checkSds, queueSds, handleCmgs
  // ---------------------------------------------------------------------

  /** The PEI command that sends an SDS: a confirmation SDS is built with
      createCfmSDS, any other with createSDS. */
  function Encode(cfg: Config, s: Sds): string
  {
    var issi := cfg.issiOf(s.tsi);
    if s.sdsType == AckSds then cfg.createCfmSds(issi, s.message) else cfg.createSds(issi, s.message)
  }

  /** The radio may send: the PEI answered OK, it is not transmitting and
      the squelch is closed. */
  predicate Ready(st: State)
  {
    st.pei.state == Classifier.Ok && !st.radio.inTransmission && !st.radio.sqlOpen
  }

  /** checkSds: nothing happens while a CMGS answer is awaited. Otherwise
      the queue is scanned (Outbox.Check); an SDS that is sent becomes the
      pending one, and no further SDS goes out until the next CMGS answer.
      The erasing of old entries follows the send, so it is skipped when
      sendPei throws. */
  function CheckSds(cfg: Config, st: State, now: int): (r: (State, bool))
    requires Live(st) && Ordered(st.sds.queue)
    ensures Ordered(r.0.sds.queue)
    ensures r.0.calls == st.calls && r.0.radio == st.radio && r.0.out.events == st.out.events && SamePei(r.0, st)
    ensures r.0.sds.lastInstance == st.sds.lastInstance && r.0.sds.newSds == st.sds.newSds
    ensures !st.sds.cmgsReceived ==> r == (st, true)
    ensures r.0.sds.cmgsReceived ==> r.0.out == st.out && r.0.sds.pending == st.sds.pending
    ensures st.sds.cmgsReceived && !r.0.sds.cmgsReceived && Live(r.0) ==>
      Encode(cfg, r.0.sds.pending) != [] &&
      r.0.out.written == st.out.written + [Terminated(Encode(cfg, r.0.sds.pending))] && r.1
  {
    if !st.sds.cmgsReceived then (st, true)
    else
      var ready := Ready(st);
      var o := Check(st.sds.queue, ready, now);
      CheckOrdered(st.sds.queue, ready, now);
      match o.sent
      case None => (st.(sds := st.sds.(queue := o.queue)), o.result)
      case Some(s) =>
        TriedOrdered(st.sds.queue, ready, now);
        var sent := st.sds.(queue := Tried(st.sds.queue, ready, now), cmgsReceived := false, pending := s);
        var st1 := SendPei(st.(sds := sent), Encode(cfg, s));
        if st1.out.aborted then (st1, true) else (st1.(sds := st1.sds.(queue := o.queue)), true)
  }

  /** checkSds as the method does it: the scan gives the tried queue, the
      entry to send and the old keys; the send comes first and the erasing
      after it, unless the send throws. */
  lemma CheckSdsSteps(cfg: Config, st: State, now: int)
    requires Live(st) && Ordered(st.sds.queue) && st.sds.cmgsReceived
    ensures var q := st.sds.queue;
      var ready := Ready(st);
      var t := FirstTarget(q);
      var u := Tried(q, ready, now);
      var ks := StaleKeys(q[..t], now);
      if ready && t < |q| then
        var st1 := SendPei(st.(sds := st.sds.(queue := u, cmgsReceived := false, pending := u[t].sds)),
                           Encode(cfg, u[t].sds));
        CheckSds(cfg, st, now) ==
          (if st1.out.aborted then st1 else st1.(sds := st1.sds.(queue := EraseKeys(u, ks))), true)
      else
        CheckSds(cfg, st, now) ==
          (st.(sds := st.sds.(queue := EraseKeys(u, ks))), Check(q, ready, now).result)
  {
  }

  /** The state queueSds hands to checkSds: `s`, unsent, inserted under
      the key size + 1. */
  function Appended(st: State, s: Sds): (r: State)
    requires Ordered(st.sds.queue)
    ensures Ordered(r.sds.queue)
    ensures r.out == st.out && r.pei == st.pei && r.radio == st.radio && r.calls == st.calls
    ensures r.sds.cmgsReceived == st.sds.cmgsReceived && r.sds.pending == st.sds.pending
    ensures r.sds.lastInstance == st.sds.lastInstance && r.sds.newSds == st.sds.newSds
  {
    st.(sds := st.sds.(queue := Insert(st.sds.queue, |st.sds.queue| + 1, s.(tos := 0))))
  }

  /** With keys 1 to n, the append puts `s` at the end under n + 1. */
  lemma AppendedDense(st: State, s: Sds)
    requires Dense(st.sds.queue)
    ensures var q := Appended(st, s).sds.queue;
      Dense(q) && q == st.sds.queue + [Entry(|st.sds.queue| + 1, s.(tos := 0))]
  {
    EnqueueDense(st.sds.queue, s.(tos := 0));
  }

  /** queueSds: the SDS, not sent yet, goes in under the key size + 1 (an
      entry already under that key stays), checkSds runs and its result is
      kept in new_sds; the new size is returned. */
  function QueueSds(cfg: Config, st: State, sds: Sds, now: int): (r: (State, int))
    requires Live(st) && Ordered(st.sds.queue)
    ensures Ordered(r.0.sds.queue)
    ensures !st.sds.cmgsReceived ==> !r.0.sds.cmgsReceived
    ensures r.0.calls == st.calls && r.0.radio == st.radio && r.0.out.events == st.out.events && SamePei(r.0, st)
    ensures r.1 == |r.0.sds.queue|
    ensures Live(r.0) && !st.sds.cmgsReceived ==> r.0.sds.newSds
  {
    var c := CheckSds(cfg, Appended(st, sds), now);
    if c.0.out.aborted then (c.0, |c.0.sds.queue|)
    else (c.0.(sds := c.0.sds.(newSds := c.1)), |c.0.sds.queue|)
  }

  /** handleCmgs: a failure report for the last instance clears the stamp of
      the pending copy only; any CMGS answer re-arms sending, records its
      instance and runs checkSds. */
  function HandleCmgs(cfg: Config, st: State, line: string, now: int): (r: State)
    requires Live(st) && Ordered(st.sds.queue)
    ensures Ordered(r.sds.queue)
    ensures r.sds.lastInstance == ParseCmgs(line).instance
    ensures r.sds.cmgsReceived || (Live(r) ==> |r.out.written| == |st.out.written| + 1)
    ensures r.calls == st.calls && r.radio == st.radio && r.out.events == st.out.events && SamePei(r, st)
  {
    var c := ParseCmgs(line);
    var pending := if st.sds.lastInstance == c.instance && c.status == SdsSendFailed
                   then st.sds.pending.(tos := 0) else st.sds.pending;
    CheckSds(cfg, st.(sds := st.sds.(pending := pending, cmgsReceived := true, lastInstance := c.instance)), now).0
  }

  // ---------------------------------------------------------------------
  // Call handling
  // ---------------------------------------------------------------------

  /** The user handleCallBegin creates for an unknown TSI. */
  function NewUser(cfg: Config): User
  {
    BlankUser.(call := "NoCall", name := "NoName", comment := "NN",
               aprsSym := cfg.aprsSym, aprsTab := cfg.aprsTab)
  }

  /** The info SDS handleCallBegin queues for an unknown TSI. */
  function WelcomeSds(cfg: Config, tsi: string): Sds
  {
    Sds(tsi, cfg.infosds, Outgoing, UnsetType, 0, 0, "Welcome Sds to newuser")
  }

  /** handleCallBegin: a line shorter than 65 characters is ignored. Else
      the squelch opens and the call is recorded under the originator's
      ISSI; an unknown originator gets a default user and the info SDS and
      nothing more; a known one is stamped with `now`, opens the QSO and
      joins its members unless already there. */
  function HandleCallBegin(cfg: Config, st: State, line: string, now: int): (r: State)
    requires Live(st) && Ordered(st.sds.queue)
    ensures |line| < 65 ==> r == st
    ensures Ordered(r.sds.queue)
    ensures !st.sds.cmgsReceived ==> !r.sds.cmgsReceived
    ensures NoDuplicates(st.calls.qso.members) ==> NoDuplicates(r.calls.qso.members)
    ensures SamePei(r, st)
  {
    if |line| < 65 then st
    else
      var st1 := SquelchOpen(st, true);
      match ParseCticn(line)
      case TooShort => st1
      case OutOfRange => Abort(st1)
      case Parsed(ci, oTsi) =>
        if oTsi !in st1.calls.userdata then
          NewCaller(cfg, st1, ci, oTsi, now)
        else KnownCaller(st1, ci, oTsi, now)
  }

  /** The call is recorded, an unknown originator stored as a default user,
      and the info SDS queued for it; the QSO is not touched. While a CMGS
      answer is awaited and the keys are 1 to n, the SDS is appended under
      key n + 1 and nothing is written. */
  function NewCaller(cfg: Config, st: State, ci: CallInfo, t: string, now: int): (r: State)
    requires Live(st) && Ordered(st.sds.queue)
    ensures Ordered(r.sds.queue) && SamePei(r, st) && r.calls.qso == st.calls.qso
    ensures !st.sds.cmgsReceived ==> !r.sds.cmgsReceived
    ensures r.calls.userdata == st.calls.userdata[t := NewUser(cfg)]
    ensures r.calls.callinfo == st.calls.callinfo[ci.oIssi := ci]
    ensures Dense(st.sds.queue) && !st.sds.cmgsReceived ==>
      r.sds.queue == st.sds.queue + [Entry(|st.sds.queue| + 1, WelcomeSds(cfg, t))] && r.out == st.out
  {
    var x := st.(calls := st.calls.(callinfo := st.calls.callinfo[ci.oIssi := ci],
                                    userdata := st.calls.userdata[t := NewUser(cfg)]));
    var w := WelcomeSds(cfg, t);
    QueueSdsWhileWaiting(cfg, x, w, now);
    assert w.(tos := 0) == w;
    QueueSds(cfg, x, w, now).0
  }

  /** The call is recorded, a known originator stamped with `now`, the QSO
      opened with the originator among its members, and the group call
      announced. */
  function KnownCaller(st: State, ci: CallInfo, t: string, now: int): (r: State)
    requires t in st.calls.userdata
    ensures r.sds == st.sds && r.out.written == st.out.written && SamePei(r, st)
    ensures r.out.events == st.out.events + [GroupCallBegin(ci.oIssi, ci.dIssi)]
    ensures r.calls.userdata == st.calls.userdata[t := st.calls.userdata[t].(lastActivity := now)]
    ensures r.calls.callinfo == st.calls.callinfo[ci.oIssi := ci]
    ensures r.calls.qso == st.calls.qso.(tsi := t, start := now,
      members := JoinQso(st.calls.qso.members, st.calls.userdata[t].call))
  {
    var user := st.calls.userdata[t];
    var qso := st.calls.qso.(tsi := t, start := now, members := JoinQso(st.calls.qso.members, user.call));
    Emit(st.(calls := st.calls.(callinfo := st.calls.callinfo[ci.oIssi := ci],
                                userdata := st.calls.userdata[t := user.(lastActivity := now)], qso := qso)),
         GroupCallBegin(ci.oIssi, ci.dIssi))
  }

  /** A call sign joins the QSO members unless it is among them. */
  function JoinQso(members: seq<string>, call: string): (r: seq<string>)
    ensures call in r
    ensures r == members || r == members + [call]
    ensures NoDuplicates(members) ==> NoDuplicates(r)
  {
    if call in members then members else members + [call]
  }

  /** handleTransmissionEnd: the squelch closes. */
  function HandleTransmissionEnd(st: State): State
  {
    Emit(SquelchOpen(st, false), GroupCallEnd)
  }

  /** handleTxGrant: the squelch opens. */
  function HandleTxGrant(st: State): State
  {
    Emit(SquelchOpen(st, true), TxGrant)
  }

  /** handleCallReleased: the QSO ends at `now`; an open squelch means the
      station went out of range. The QSO's user is looked up with
      operator[], which adds a blank one when it is missing. The talkgroup
      is down, the members are cleared, transmission is over and queued SDS
      get another chance. */
  function HandleCallReleased(cfg: Config, st: State, line: string, now: int): (r: State)
    requires Live(st) && Ordered(st.sds.queue)
    ensures Ordered(r.sds.queue)
    ensures !st.sds.cmgsReceived ==> !r.sds.cmgsReceived
    ensures r.calls.qso == st.calls.qso.(stop := now, members := [])
    ensures !r.radio.talkgroupUp && !r.radio.inTransmission
    ensures r.calls.qso.tsi in r.calls.userdata
    ensures forall t :: t in st.calls.userdata ==> t in r.calls.userdata && r.calls.userdata[t] == st.calls.userdata[t]
    ensures SamePei(r, st)
    ensures r.radio.sqlOpen == (st.radio.sqlOpen && st.radio.transmitting)
    ensures r.out.events == st.out.events +
      [if st.radio.sqlOpen then OutOfRangeEnd(CallReleaseCause(line)) else CallEnd(CallReleaseCause(line))]
    ensures r == CheckSds(cfg, ReleaseCall(st, line, now), now).0
  {
    CheckSds(cfg, ReleaseCall(st, line, now), now).0
  }

  /** What handleCallReleased does before it calls checkSds: with the
      squelch open the call ended out of range and the squelch closes
      (unless the transmitter is on); otherwise the call ended with the
      cause reported. Nothing is written. */
  function ReleaseCall(st: State, line: string, now: int): (r: State)
    ensures r.sds == st.sds && r.pei == st.pei && r.out.aborted == st.out.aborted
    ensures r.out.written == st.out.written && r.radio.transmitting == st.radio.transmitting
    ensures r.radio.sqlOpen == (st.radio.sqlOpen && st.radio.transmitting)
    ensures !r.radio.talkgroupUp && !r.radio.inTransmission
    ensures st.radio.sqlOpen ==> r.out.events == st.out.events + [OutOfRangeEnd(CallReleaseCause(line))]
    ensures !st.radio.sqlOpen ==> r.out.events == st.out.events + [CallEnd(CallReleaseCause(line))]
  {
    var st1 := st.(calls := st.calls.(qso := st.calls.qso.(stop := now)));
    var cause := CallReleaseCause(line);
    var st2 := if st1.radio.sqlOpen then Emit(SquelchOpen(st1, false), OutOfRangeEnd(cause))
               else Emit(st1, CallEnd(cause));
    var tsi := st2.calls.qso.tsi;
    var users := if tsi in st2.calls.userdata then st2.calls.userdata
                 else st2.calls.userdata[tsi := BlankUser];
    st2.(calls := st2.calls.(userdata := users, qso := st2.calls.qso.(members := [])),
         radio := st2.radio.(talkgroupUp := false, inTransmission := false))
  }

  // ---------------------------------------------------------------------
  // Other answers
  // ---------------------------------------------------------------------

  /** handleCtdgr: a report with exactly three commas is announced, and the
      gateway is stored unless one with that ISSI is known (emplace). */
  function HandleCtdgr(st: State, line: string): (r: State)
    ensures ParseCtdgr(line).None? ==> r == st
    ensures ParseCtdgr(line).Some? ==>
      var d := ParseCtdgr(line).value;
      d.issi in r.calls.dmoRepGw &&
      (d.issi in st.calls.dmoRepGw ==> r.calls.dmoRepGw == st.calls.dmoRepGw) &&
      (d.issi !in st.calls.dmoRepGw ==> r.calls.dmoRepGw[d.issi] == DmoRpt(d.issi, d.mni, d.state)) &&
      r.out.events == st.out.events + [DmoGwRpt(d.dmct, d.issi, d.mni, d.state)]
  {
    var p := ParseCtdgr(line);
    if p.None? then st else StoreGateway(st, p.value)
  }

  /** The report is announced and the gateway stored unless known. */
  function StoreGateway(st: State, d: Ctdgr): (r: State)
    ensures d.issi in r.calls.dmoRepGw
    ensures d.issi in st.calls.dmoRepGw ==> r.calls.dmoRepGw == st.calls.dmoRepGw
    ensures d.issi !in st.calls.dmoRepGw ==> r.calls.dmoRepGw == st.calls.dmoRepGw[d.issi := DmoRpt(d.issi, d.mni, d.state)]
    ensures r.out.events == st.out.events + [DmoGwRpt(d.dmct, d.issi, d.mni, d.state)]
    ensures r == st.(calls := r.calls, out := r.out)
  {
    var gws := if d.issi in st.calls.dmoRepGw then st.calls.dmoRepGw
               else st.calls.dmoRepGw[d.issi := DmoRpt(d.issi, d.mni, d.state)];
    Emit(st.(calls := st.calls.(dmoRepGw := gws)), DmoGwRpt(d.dmct, d.issi, d.mni, d.state))
  }

  /** handleClvl: the audio level is announced. */
  function HandleClvl(st: State, line: string): State
  {
    Emit(st, AudioLevel(ParseClvl(line)))
  }

  /** getAiMode: the new air interface mode is announced when the line is
      long enough to hold one. */
  function GetAiMode(st: State, line: string): State
  {
    match AiMode(line)
    case None => st
    case Some(t) => Emit(st, TetraMode(t))
  }

  /** handleCnumf: after the identity check the initialisation is complete;
      the check throws when a type-6 identity is shorter than 9. */
  function HandleCnumf(cfg: Config, st: State, line: string): State
  {
    match CnumfCheck(cfg.mcc, cfg.mnc, cfg.issi, line)
    case None => Abort(st)
    case Some(_) => st.(pei := st.pei.(request := InitComplete))
  }

  // ---------------------------------------------------------------------
  // handlePeiAnswer
  // ---------------------------------------------------------------------

  /** The switch of handlePeiAnswer on the kind of the line. The SDS kinds
      go to handleSds and handleSdsMsg, which are not part of this model;
      +CTGS is parsed and the result dropped; the others change nothing. */
  /** An OK answer: the state becomes OK, and an SDS queued meanwhile is sent
      when no transmission is under way. */
  function HandleOk(cfg: Config, st: State, now: int): (r: State)
    requires Live(st) && Ordered(st.sds.queue)
    ensures Ordered(r.sds.queue)
    ensures r.calls == st.calls && r.pei.request == st.pei.request && r.pei.cmds == st.pei.cmds
    ensures !r.out.aborted ==> r.pei.state == Classifier.Ok
    ensures Live(r) ==>
      r.out.events == st.out.events &&
      (r.out.written == st.out.written ||
       (Encode(cfg, r.sds.pending) != [] &&
        r.out.written == st.out.written + [Terminated(Encode(cfg, r.sds.pending))]))
    ensures !(st.sds.newSds && !st.radio.inTransmission) ==> r == st.(pei := st.pei.(state := Classifier.Ok))
    ensures st.sds.newSds && !st.radio.inTransmission ==>
      r == CheckSds(cfg, st.(pei := st.pei.(state := Classifier.Ok)), now).0
  {
    var st1 := st.(pei := st.pei.(state := Classifier.Ok));
    if st1.sds.newSds && !st1.radio.inTransmission then CheckSds(cfg, st1, now).0 else st1
  }

  function HandleAnswer(cfg: Config, st: State, kind: Classifier.Kind, line: string, now: int): (r: State)
    requires Live(st) && Ordered(st.sds.queue)
    ensures Ordered(r.sds.queue)
    ensures !st.sds.cmgsReceived && r.sds.cmgsReceived ==> kind == Classifier.Cmgs
    ensures NoDuplicates(st.calls.qso.members) ==> NoDuplicates(r.calls.qso.members)
    ensures kind != Classifier.Cnumf ==> r.pei.request == st.pei.request && r.pei.cmds == st.pei.cmds
  {
    if kind in StatusKinds then StatusAnswer(cfg, st, kind, line, now) else CallAnswer(cfg, st, kind, line, now)
  }

  /** The answer kinds about the radio and its messages. */
  const StatusKinds: set<Classifier.Kind> :=
    {Classifier.Ok, Classifier.Error, Classifier.Cnumf, Classifier.Cmgs, Classifier.OpMode, Classifier.Clvl}

  /** The cases of handlePeiAnswer for the answers about the radio and its
      messages. */
  function StatusAnswer(cfg: Config, st: State, kind: Classifier.Kind, line: string, now: int): (r: State)
    requires Live(st) && Ordered(st.sds.queue) && kind in StatusKinds
    ensures Ordered(r.sds.queue)
    ensures !st.sds.cmgsReceived && r.sds.cmgsReceived ==> kind == Classifier.Cmgs
    ensures NoDuplicates(st.calls.qso.members) ==> NoDuplicates(r.calls.qso.members)
    ensures kind != Classifier.Cnumf ==> r.pei.request == st.pei.request && r.pei.cmds == st.pei.cmds
  {
    match kind
    case Ok => HandleOk(cfg, st, now)
    case Error => st.(pei := st.pei.(state := Classifier.Error))
    case Cnumf => HandleCnumf(cfg, st, line)
    case Cmgs => HandleCmgs(cfg, st, line, now)
    case OpMode => GetAiMode(st, line)
    case Clvl => HandleClvl(st, line)
  }

  /** The cases of handlePeiAnswer for the answers about calls and
      transmissions; the kinds without a case leave the state as it is. */
  function CallAnswer(cfg: Config, st: State, kind: Classifier.Kind, line: string, now: int): (r: State)
    requires Live(st) && Ordered(st.sds.queue) && kind !in StatusKinds
    ensures Ordered(r.sds.queue)
    ensures !st.sds.cmgsReceived ==> !r.sds.cmgsReceived
    ensures NoDuplicates(st.calls.qso.members) ==> NoDuplicates(r.calls.qso.members)
    ensures r.pei.request == st.pei.request && r.pei.cmds == st.pei.cmds
  {
    match kind
    case CallBegin => HandleCallBegin(cfg, st, line, now)
    case TransmissionEnd => HandleTransmissionEnd(st)
    case CallReleased => HandleCallReleased(cfg, st, line, now)
    case TransmissionGrant => HandleTxGrant(st)
    case Ctdgr => HandleCtdgr(st, line)
    case _ => st
  }

  /** handlePeiAnswer: the line is classified and handled; during INIT an
      OK or ERROR answer drives initPei on to the next command. */
  function HandlePeiAnswer(cfg: Config, st: State, line: string, now: int): (r: State)
    requires Live(st) && Ordered(st.sds.queue)
    ensures Ordered(r.sds.queue)
    ensures !st.sds.cmgsReceived && r.sds.cmgsReceived ==>
      Classifier.HandleMessage(line, st.pei.state) == Classifier.Cmgs
    ensures NoDuplicates(st.calls.qso.members) ==> NoDuplicates(r.calls.qso.members)
  {
    var kind := Classifier.HandleMessage(line, st.pei.state);
    var st1 := HandleAnswer(cfg, st, kind, line, now);
    if Live(st1) && st1.pei.request == Init && (kind == Classifier.Ok || kind == Classifier.Error)
    then InitPei(st1) else st1
  }

  // ---------------------------------------------------------------------
  // onCharactersReceived
  // ---------------------------------------------------------------------

  /** The loop of onCharactersReceived on the buffer: every segment before a
      "\r\n" that is not empty is handled, and the segment with its
      "\r\n" is erased. When a handler throws, the line it was handling is
      still in the buffer. */
  function Drain(cfg: Config, st: State, buf: string, now: int): (r: (State, string))
    requires Live(st) && Ordered(st.sds.queue)
    ensures Ordered(r.0.sds.queue)
    decreases |buf|
  {
    match Find(buf, CrLf)
    case None => (st, buf)
    case Some(f) =>
      var st1 := if f != 0 then HandlePeiAnswer(cfg, st, buf[..f], now) else st;
      if st1.out.aborted then (st1, buf) else Drain(cfg, st1, buf[f + 2..], now)
  }

  /** handlePeiAnswer on each line in turn, until one throws. */
  function AnswerAll(cfg: Config, st: State, lines: seq<string>, now: int): (r: State)
    requires Live(st) && Ordered(st.sds.queue)
    ensures Ordered(r.sds.queue)
    decreases |lines|
  {
    if lines == [] then st
    else
      var st1 := HandlePeiAnswer(cfg, st, lines[0], now);
      if st1.out.aborted then st1 else AnswerAll(cfg, st1, lines[1..], now)
  }

  /** onCharactersReceived: the command timer is disarmed, the chunk is
      appended as a C string and the buffer is drained. */
  function Receive(cfg: Config, st: State, buf: string, chunk: string, now: int): (r: (State, string))
    requires Live(st) && Ordered(st.sds.queue)
    ensures Ordered(r.0.sds.queue)
  {
    Drain(cfg, st.(pei := st.pei.(comTimer := false)), buf + CString(chunk), now)
  }

  /** The loop hands on exactly the lines Lines.Assemble cuts from the
      buffer, in order, and keeps the tail it leaves. */
  lemma DrainAnswersLines(cfg: Config, st: State, buf: string, now: int)
    requires Live(st) && Ordered(st.sds.queue)
    ensures Drain(cfg, st, buf, now).0 == AnswerAll(cfg, st, Assemble(buf).lines, now)
    ensures Live(Drain(cfg, st, buf, now).0) ==> Drain(cfg, st, buf, now).1 == Assemble(buf).rest
  {
    DrainAnswers(cfg, st, buf, now);
    DrainKeepsRest(cfg, st, buf, now);
  }

  lemma {:induction false} DrainAnswers(cfg: Config, st: State, buf: string, now: int)
    requires Live(st) && Ordered(st.sds.queue)
    ensures Drain(cfg, st, buf, now).0 == AnswerAll(cfg, st, Assemble(buf).lines, now)
    decreases |buf|
  {
    match Find(buf, CrLf)
    case None =>
      AssembleDone(buf);
    case Some(f) =>
      AssembleStep(buf, f);
      var tail := buf[f + 2..];
      if f == 0 {
        DrainAnswers(cfg, st, tail, now);
      } else {
        var line := buf[..f];
        var st1 := HandlePeiAnswer(cfg, st, line, now);
        AnswerAllCons(cfg, st, line, Assemble(tail).lines, now);
        DrainLine(cfg, st, buf, now, f);
        if !st1.out.aborted {
          DrainAnswers(cfg, st1, tail, now);
        }
      }
  }

  /** One turn of the loop on an empty line: it is only erased. */
  lemma DrainEmptyLine(cfg: Config, st: State, buf: string, now: int)
    requires Live(st) && Ordered(st.sds.queue) && Find(buf, CrLf) == Some(0)
    ensures Drain(cfg, st, buf, now) == Drain(cfg, st, buf[2..], now)
  {
  }

  /** One turn of the loop on a line that is not empty: it is handled. */
  lemma DrainLine(cfg: Config, st: State, buf: string, now: int, f: nat)
    requires Live(st) && Ordered(st.sds.queue) && Find(buf, CrLf) == Some(f) && f != 0
    ensures var st1 := HandlePeiAnswer(cfg, st, buf[..f], now);
      Drain(cfg, st, buf, now) == if st1.out.aborted then (st1, buf) else Drain(cfg, st1, buf[f + 2..], now)
  {
  }

  /** AnswerAll on a first line and the rest. */
  lemma AnswerAllCons(cfg: Config, st: State, line: string, rest: seq<string>, now: int)
    requires Live(st) && Ordered(st.sds.queue)
    ensures var st1 := HandlePeiAnswer(cfg, st, line, now);
      AnswerAll(cfg, st, [line] + rest, now) == if st1.out.aborted then st1 else AnswerAll(cfg, st1, rest, now)
  {
    assert ([line] + rest)[1..] == rest;
  }

  lemma {:induction false} DrainKeepsRest(cfg: Config, st: State, buf: string, now: int)
    requires Live(st) && Ordered(st.sds.queue)
    ensures Live(Drain(cfg, st, buf, now).0) ==> Drain(cfg, st, buf, now).1 == Assemble(buf).rest
    decreases |buf|
  {
    match Find(buf, CrLf)
    case None =>
    case Some(f) =>
      AssembleStep(buf, f);
      var st1 := if f != 0 then HandlePeiAnswer(cfg, st, buf[..f], now) else st;
      if !st1.out.aborted {
        DrainKeepsRest(cfg, st1, buf[f + 2..], now);
      }
  }

  /** After a chunk is received, the buffer holds no complete line and
      every line before it was handled. */
  lemma ReceiveLeavesNoLine(cfg: Config, st: State, buf: string, chunk: string, now: int)
    requires Live(st) && Ordered(st.sds.queue)
    ensures var r := Receive(cfg, st, buf, chunk, now);
      r.0 == AnswerAll(cfg, st.(pei := st.pei.(comTimer := false)), Assemble(buf + CString(chunk)).lines, now) &&
      (Live(r.0) ==> NoCrLf(r.1))
  {
    var s := buf + CString(chunk);
    DrainAnswersLines(cfg, st.(pei := st.pei.(comTimer := false)), s, now);
    AssembleClean(s);
  }

  // ---------------------------------------------------------------------
  // Timers, initialize, transmitter
  // ---------------------------------------------------------------------

  /** onComTimeout: the radio did not answer in time. */
  function OnComTimeout(st: State): (r: State)
    ensures r.pei.state == Classifier.Timeout && r.out.events == st.out.events + [PeiComTimeout]
    ensures r.sds == st.sds && r.calls == st.calls && r.radio == st.radio && r.out.written == st.out.written
  {
    var st1 := Emit(st, PeiComTimeout);
    st1.(pei := st1.pei.(state := Classifier.Timeout))
  }

  const KeepAlive: string := "AT"

  /** onPeiActivityTimeout: the radio is poked with "AT". */
  function OnPeiActivityTimeout(st: State): (r: State)
    requires Live(st)
    ensures r.out.written == st.out.written + [KeepAlive + "\r"] && r.pei.request == CheckAt
    ensures r.sds == st.sds && r.calls == st.calls && r.radio == st.radio && r.pei.cmds == st.pei.cmds
    ensures r.out.events == st.out.events && r.pei.state == st.pei.state
  {
    var st1 := SendPei(st, KeepAlive);
    st1.(pei := st1.pei.(request := CheckAt))
  }

  /** onPeiBreakCommandTimeout: the initialisation starts. The first
      command of the list goes out, or, when the list is used up, the
      identity query that completes the initialisation. */
  function OnPeiBreakCommandTimeout(st: State): (r: State)
    requires Live(st)
    ensures st.pei.cmds != [] && st.pei.cmds[0] != [] ==>
      Live(r) && r.out.written == st.out.written + [Terminated(st.pei.cmds[0])] &&
      r.pei.cmds == st.pei.cmds[1..] && r.pei.request == Init
    ensures st.pei.cmds == [] ==>
      Live(r) && r.out.written == st.out.written + [CnumfQuery + "\r"] &&
      r.out.events == st.out.events + [PeiInitFinished] && r.pei.request == InitComplete
    ensures r.sds == st.sds && r.calls == st.calls && r.radio == st.radio
  {
    InitPei(st.(pei := st.pei.(request := Init)))
  }

  const Break: string := "\r\n"

  /** The tail of initialize once the serial port is open: the command list
      is set, a line break is sent, and initPei starts in AT_CMD_WAIT, which
      arms the break-command timer. */
  function Initialize(st: State, initcmds: seq<string>): State
    requires Live(st)
  {
    var st1 := SendPei(st.(pei := st.pei.(cmds := initcmds)), Break);
    var st2 := InitPei(st1.(pei := st1.pei.(request := AtCmdWait)));
    if st2.out.aborted then st2 else Emit(st2, Startup)
  }

  const CircuitSetup: string := "AT+CTSDC=0,0,0,1,1,0,1,1,0,0,0"

  /** to_string of an int. */
  function IntString(n: int): (r: string)
    ensures r != [] && Atoi(r) == n
  {
    FormatIntRoundTrip(n, 0);
    FormatInt(n, 0)
  }

  /** initGroupCall: the circuit is set up and the group dialled. */
  function InitGroupCall(st: State, gssi: int): (r: State)
    requires Live(st)
    ensures Live(r) && r.radio.inTransmission
    ensures r.out.written == st.out.written + [CircuitSetup + "\r", "ATD" + IntString(gssi) + "\r"]
    ensures r.out.events == st.out.events + [GroupCallInit(gssi)]
  {
    var st1 := SendPei(st.(radio := st.radio.(inTransmission := true)), CircuitSetup);
    var st2 := SendPei(st1, "ATD" + IntString(gssi));
    Emit(st2, GroupCallInit(gssi))
  }

  const TxDemand: string := "AT+CTXD=1,1"
  const TxCeased: string := "AT+CUTXC=1"

  /** transmitterStateChange: the first transmission sets up the group call
      and brings the talkgroup up; later ones demand the channel; the end of
      a transmission is reported to the radio. */
  function TransmitterStateChange(cfg: Config, st: State, isTx: bool): (r: State)
    requires Live(st)
    ensures Live(r) && r.radio.transmitting == isTx
    ensures r.radio.talkgroupUp == (st.radio.talkgroupUp || isTx)
    ensures r.radio.inTransmission == (st.radio.inTransmission || (isTx && !st.radio.talkgroupUp))
    ensures |r.out.written| == |st.out.written| + (if isTx && !st.radio.talkgroupUp then 2 else 1)
    ensures isTx && st.radio.talkgroupUp ==> r.out.written == st.out.written + [TxDemand + "\r"]
    ensures !isTx ==> r.out.written == st.out.written + [TxCeased + "\r"]
    ensures r.sds == st.sds && r.calls == st.calls && SamePei(r, st)
  {
    var st1 := st.(radio := st.radio.(transmitting := isTx));
    if isTx then
      if !st1.radio.talkgroupUp then
        var st2 := InitGroupCall(st1, cfg.gssi);
        st2.(radio := st2.radio.(talkgroupUp := true))
      else SendPei(st1, TxDemand)
    else SendPei(st1, TxCeased)
  }

  // ---------------------------------------------------------------------
  // SDS producers
  // ---------------------------------------------------------------------

  /** cfmSdsReceived: "OK" goes back to the sender. */
  function CfmSdsReceived(cfg: Config, st: State, tsi: string, now: int): State
    requires Live(st) && Ordered(st.sds.queue)
  {
    QueueSds(cfg, st, Sds(tsi, "OK", Outgoing, UnsetType, 0, 0, ""), now).0
  }

  /** cfmTxtSdsReceived: a text SDS of 8 characters or more is confirmed
      with an ACK_SDS carrying its message reference. */
  function CfmTxtSdsReceived(cfg: Config, st: State, message: string, tsi: string, now: int): State
    requires Live(st) && Ordered(st.sds.queue)
  {
    match ConfirmationOf(message)
    case None => st
    case Some(m) => QueueSds(cfg, st, Sds(tsi, m, Outgoing, AckSds, 0, 0, "confirmation Sds"), now).0
  }

  /** sdsPtyReceived: an injected "tsi,T|R,payload" line; type T is a text
      SDS, anything else raw. */
  function SdsPtyReceived(cfg: Config, st: State, data: string, now: int): State
    requires Live(st) && Ordered(st.sds.queue) && |data| >= 1
  {
    var inj := ParseInjection(data);
    var kind := if inj.kind == "T" then TextType else RawType;
    QueueSds(cfg, st, Sds(inj.tsi, inj.message, Outgoing, kind, 0, 0, ""), now).0
  }

  /** sendWelcomeSds: the SDS configured for the reason, if any. */
  function SendWelcomeSds(cfg: Config, st: State, tsi: string, r4s: int, now: int): State
    requires Live(st) && Ordered(st.sds.queue)
  {
    if r4s in cfg.sdsOnActivity
    then QueueSds(cfg, st, Sds(tsi, cfg.sdsOnActivity[r4s], Outgoing, UnsetType, 0, 0, "welcome sds"), now).0
    else st
  }

  /** cfmSdsReceived queues "OK" for the sender: appended under the next
      key while a CMGS answer is awaited, sent at once when the radio is
      ready and nothing older waits (Enqueued). */
  lemma CfmSdsQueuesOk(cfg: Config, st: State, tsi: string, now: int)
    requires Live(st) && Dense(st.sds.queue)
    ensures Enqueued(cfg, st, Sds(tsi, "OK", Outgoing, UnsetType, 0, 0, ""), now, CfmSdsReceived(cfg, st, tsi, now))
  {
    QueueSdsEnqueues(cfg, st, Sds(tsi, "OK", Outgoing, UnsetType, 0, 0, ""), now);
  }

  /** cfmTxtSdsReceived confirms a text SDS of at least 8 characters with
      an ACK_SDS "821000" + its reference (characters 4 and 5), queued as
      Enqueued describes; a shorter one is not confirmed. */
  lemma CfmTxtSdsQueuesAck(cfg: Config, st: State, message: string, tsi: string, now: int)
    requires Live(st) && Dense(st.sds.queue)
    ensures |message| < 8 ==> CfmTxtSdsReceived(cfg, st, message, tsi, now) == st
    ensures |message| >= 8 ==>
      var ack := Sds(tsi, "821000" + message[4..6], Outgoing, AckSds, 0, 0, "confirmation Sds");
      Enqueued(cfg, st, ack, now, CfmTxtSdsReceived(cfg, st, message, tsi, now))
  {
    if |message| >= 8 {
      var m := ConfirmationOf(message).value;
      assert m == "821000" + message[4..6];
      QueueSdsEnqueues(cfg, st, Sds(tsi, m, Outgoing, AckSds, 0, 0, "confirmation Sds"), now);
    }
  }

  /** An injected "tsi,type,payload" line and its newline queue the
      payload for that TSI as Enqueued describes: a text SDS for type "T"
      and a raw one for any other type; commas in the payload are kept. */
  lemma SdsPtyQueues(cfg: Config, st: State, tsi: string, kind: string, message: string, nl: char, now: int)
    requires Live(st) && Dense(st.sds.queue)
    requires ',' !in tsi && ',' !in kind
    ensures var t := if kind == "T" then TextType else RawType;
      Enqueued(cfg, st, Sds(tsi, message, Outgoing, t, 0, 0, ""), now,
               SdsPtyReceived(cfg, st, tsi + "," + kind + "," + message + [nl], now))
  {
    InjectionRoundTrip(tsi, kind, message, nl);
    var t := if kind == "T" then TextType else RawType;
    QueueSdsEnqueues(cfg, st, Sds(tsi, message, Outgoing, t, 0, 0, ""), now);
  }

  /** sendWelcomeSds queues the SDS configured for the reason for sending
      as Enqueued describes, and nothing for a reason without one. */
  lemma SendWelcomeSdsQueues(cfg: Config, st: State, tsi: string, r4s: int, now: int)
    requires Live(st) && Dense(st.sds.queue)
    ensures r4s !in cfg.sdsOnActivity ==> SendWelcomeSds(cfg, st, tsi, r4s, now) == st
    ensures r4s in cfg.sdsOnActivity ==>
      var w := Sds(tsi, cfg.sdsOnActivity[r4s], Outgoing, UnsetType, 0, 0, "welcome sds");
      Enqueued(cfg, st, w, now, SendWelcomeSds(cfg, st, tsi, r4s, now))
  {
    if r4s in cfg.sdsOnActivity {
      QueueSdsEnqueues(cfg, st, Sds(tsi, cfg.sdsOnActivity[r4s], Outgoing, UnsetType, 0, 0, "welcome sds"), now);
    }
  }

  /** handleCnumf completes the initialisation whatever identity the radio
      reports: a mismatch only raises warnings. It throws only for a type-6
      answer whose TSI is shorter than 9 characters. */
  lemma CnumfCompletesInit(cfg: Config, st: State, line: string)
    ensures var r := HandleCnumf(cfg, st, line);
      (CnumfCheck(cfg.mcc, cfg.mnc, cfg.issi, line).Some? ==>
        r == st.(pei := st.pei.(request := InitComplete))) &&
      (CnumfCheck(cfg.mcc, cfg.mnc, cfg.issi, line).None? ==> !Live(r))
  {
  }

  // ---------------------------------------------------------------------
  // Properties: the initialisation
  // ---------------------------------------------------------------------

  /** An answer classified as OK during INIT records the OK state, lets
      checkSds send an SDS that is due (at most one command, the SDS's own),
      and then sends the next initialisation command; with none left, it
      asks for the radio's identity and ends the initialisation. */
  lemma OkAnswerDrivesInit(cfg: Config, st: State, line: string, now: int)
    requires Live(st) && Ordered(st.sds.queue)
    requires Classifier.HandleMessage(line, st.pei.state) == Classifier.Ok
    requires st.pei.request == Init
    ensures var r := HandlePeiAnswer(cfg, st, line, now);
      r.calls == st.calls && (!Live(HandleOk(cfg, st, now)) ==> r == HandleOk(cfg, st, now))
    ensures !(st.sds.newSds && !st.radio.inTransmission) ==>
      HandleOk(cfg, st, now).out == st.out && HandlePeiAnswer(cfg, st, line, now).sds == st.sds
    ensures var h := HandleOk(cfg, st, now);
      var r := HandlePeiAnswer(cfg, st, line, now);
      Live(h) ==> r.pei.state == Classifier.Ok && r.sds == h.sds
    ensures var h := HandleOk(cfg, st, now);
      var r := HandlePeiAnswer(cfg, st, line, now);
      Live(h) && st.pei.cmds != [] && st.pei.cmds[0] != [] ==>
        Live(r) && r.out.written == h.out.written + [Terminated(st.pei.cmds[0])] &&
        r.pei.cmds == st.pei.cmds[1..] && r.pei.request == Init
    ensures var h := HandleOk(cfg, st, now);
      var r := HandlePeiAnswer(cfg, st, line, now);
      Live(h) && st.pei.cmds == [] ==>
        Live(r) && r.out.written == h.out.written + [CnumfQuery + "\r"] &&
        r.out.events == st.out.events + [PeiInitFinished] && r.pei.request == InitComplete
  {
    var h := HandleOk(cfg, st, now);
    assert HandleAnswer(cfg, st, Classifier.Ok, line, now) == h;
    assert HandlePeiAnswer(cfg, st, line, now) == if Live(h) then InitPei(h) else h;
  }

  /** A line starting with "OK" during INIT drives the next command, after
      the SDS checkSds may send. */
  lemma OkDrivesInit(cfg: Config, st: State, line: string, now: int)
    requires Live(st) && Ordered(st.sds.queue) && "OK" <= line
    requires st.pei.request == Init
    requires st.pei.cmds != [] && st.pei.cmds[0] != []
    ensures var h := HandleOk(cfg, st, now);
      var r := HandlePeiAnswer(cfg, st, line, now);
      Live(h) ==>
        Live(r) && r.pei.state == Classifier.Ok &&
        r.out.written == h.out.written + [Terminated(st.pei.cmds[0])] && r.pei.cmds == st.pei.cmds[1..]
  {
    Classifier.OkFirst(line, st.pei.state);
    OkAnswerDrivesInit(cfg, st, line, now);
  }

  /** A "+CME ERROR" answer during INIT records the ERROR state and still
      sends the next initialisation command; with none left, it asks for
      the radio's identity and ends the initialisation. No SDS is sent. */
  lemma ErrorAnswerDrivesInit(cfg: Config, st: State, line: string, now: int)
    requires Live(st) && Ordered(st.sds.queue)
    requires Classifier.HandleMessage(line, st.pei.state) == Classifier.Error
    requires st.pei.request == Init
    ensures var r := HandlePeiAnswer(cfg, st, line, now);
      r.pei.state == Classifier.Error && r.sds == st.sds && r.calls == st.calls && r.radio == st.radio &&
      (st.pei.cmds != [] && st.pei.cmds[0] != [] ==>
        Live(r) && r.out.written == st.out.written + [Terminated(st.pei.cmds[0])] &&
        r.out.events == st.out.events && r.pei.cmds == st.pei.cmds[1..] && r.pei.request == Init) &&
      (st.pei.cmds == [] ==>
        Live(r) && r.out.written == st.out.written + [CnumfQuery + "\r"] &&
        r.out.events == st.out.events + [PeiInitFinished] && r.pei.request == InitComplete)
  {
    assert HandleAnswer(cfg, st, Classifier.Error, line, now) == st.(pei := st.pei.(state := Classifier.Error));
  }

  /** A line starting with "+CME ERROR" during INIT drives the next
      command as well. */
  lemma CmeErrorDrivesInit(cfg: Config, st: State, line: string, now: int)
    requires Live(st) && Ordered(st.sds.queue) && "+CME ERROR" <= line
    requires st.pei.request == Init
    requires st.pei.cmds != [] && st.pei.cmds[0] != []
    ensures var r := HandlePeiAnswer(cfg, st, line, now);
      Live(r) && r.pei.state == Classifier.Error &&
      r.out.written == st.out.written + [Terminated(st.pei.cmds[0])] && r.pei.cmds == st.pei.cmds[1..]
  {
    Classifier.ErrorFirst(line, st.pei.state);
    ErrorAnswerDrivesInit(cfg, st, line, now);
  }

  /** A line that matches no pattern while the PEI state is OK is taken for
      another OK: it is handled exactly like "OK" (during INIT it too sends
      the next command). */
  lemma UnmatchedLineRepeatsOk(cfg: Config, st: State, line: string, now: int)
    requires Live(st) && Ordered(st.sds.queue) && Classifier.NoMatchFrom(line, Classifier.Rules, 0)
    requires st.pei.state == Classifier.Ok
    ensures HandlePeiAnswer(cfg, st, line, now) == HandlePeiAnswer(cfg, st, "OK", now)
  {
    Classifier.HandleMessageUnmatched(line, st.pei.state);
    Classifier.OkFirst("OK", st.pei.state);
    assert HandleAnswer(cfg, st, Classifier.Ok, line, now) == HandleAnswer(cfg, st, Classifier.Ok, "OK", now);
  }

  /** initialize sends the line break and then, in AT_CMD_WAIT, the first
      command of the list, arms the break-command timer and announces the
      start-up. */
  lemma InitializeSendsBreakThenFirst(st: State, initcmds: seq<string>)
    requires Live(st) && initcmds != [] && initcmds[0] != []
    ensures var r := Initialize(st, initcmds);
      Live(r) && r.out.written == st.out.written + [Break + "\r", Terminated(initcmds[0])] &&
      r.pei.cmds == initcmds[1..] && r.pei.request == AtCmdWait && r.pei.breakTimer &&
      r.out.events == st.out.events + [Startup]
  {
    var st1 := SendPei(st.(pei := st.pei.(cmds := initcmds)), Break);
    assert Terminated(Break) == Break + "\r";
    assert st1.out.written == st.out.written + [Break + "\r"];
  }

  // ---------------------------------------------------------------------
  // Properties: one SDS at a time
  // ---------------------------------------------------------------------

  /** The PEI state is never a CMGS answer: handlePeiAnswer sets it only to
      OK or ERROR. */
  lemma AnswerState(cfg: Config, st: State, kind: Classifier.Kind, line: string, now: int)
    requires Live(st) && Ordered(st.sds.queue)
    ensures var r := HandleAnswer(cfg, st, kind, line, now);
      r.pei.state == st.pei.state || r.pei.state == Classifier.Ok || r.pei.state == Classifier.Error
  {
  }

  /** While a CMGS answer is awaited, no SDS goes out until a line starting
      with "+CMGS:" arrives: whatever else the radio says leaves sending
      blocked. */
  lemma {:induction false} AnswerAllKeepsWaiting(cfg: Config, st: State, lines: seq<string>, now: int)
    requires Live(st) && Ordered(st.sds.queue) && !st.sds.cmgsReceived && st.pei.state != Classifier.Cmgs
    requires forall i :: 0 <= i < |lines| ==> !("+CMGS:" <= lines[i])
    ensures !AnswerAll(cfg, st, lines, now).sds.cmgsReceived
    ensures AnswerAll(cfg, st, lines, now).pei.state != Classifier.Cmgs
    decreases |lines|
  {
    if lines != [] {
      PeiAnswerKeepsWaiting(cfg, st, lines[0], now);
      var st1 := HandlePeiAnswer(cfg, st, lines[0], now);
      if !st1.out.aborted {
        assert forall i :: 0 <= i < |lines[1..]| ==> lines[1..][i] == lines[i + 1];
        AnswerAllKeepsWaiting(cfg, st1, lines[1..], now);
      }
    }
  }

  /** One line that does not start with "+CMGS:" leaves sending blocked. */
  lemma PeiAnswerKeepsWaiting(cfg: Config, st: State, line: string, now: int)
    requires Live(st) && Ordered(st.sds.queue) && !st.sds.cmgsReceived && st.pei.state != Classifier.Cmgs
    requires !("+CMGS:" <= line)
    ensures !HandlePeiAnswer(cfg, st, line, now).sds.cmgsReceived
    ensures HandlePeiAnswer(cfg, st, line, now).pei.state != Classifier.Cmgs
  {
    var kind := Classifier.HandleMessage(line, st.pei.state);
    Classifier.CmgsExactly(line, st.pei.state);
    AnswerState(cfg, st, kind, line, now);
  }

  /** The QSO members never hold a call sign twice, over any run of lines. */
  lemma {:induction false} AnswerAllNoDuplicates(cfg: Config, st: State, lines: seq<string>, now: int)
    requires Live(st) && Ordered(st.sds.queue) && NoDuplicates(st.calls.qso.members)
    ensures NoDuplicates(AnswerAll(cfg, st, lines, now).calls.qso.members)
    decreases |lines|
  {
    if lines != [] {
      var st1 := HandlePeiAnswer(cfg, st, lines[0], now);
      if !st1.out.aborted {
        AnswerAllNoDuplicates(cfg, st1, lines[1..], now);
      }
    }
  }

  /** While a CMGS answer is awaited, queueSds appends the SDS, unsent,
      under the next key, sends nothing, and reports it as new. */
  lemma QueueSdsWhileWaiting(cfg: Config, st: State, sds: Sds, now: int)
    requires Live(st) && Ordered(st.sds.queue)
    ensures Dense(st.sds.queue) && !st.sds.cmgsReceived ==>
      var r := QueueSds(cfg, st, sds, now);
      r.0.sds.queue == st.sds.queue + [Entry(|st.sds.queue| + 1, sds.(tos := 0))] &&
      Dense(r.0.sds.queue) && r.1 == |st.sds.queue| + 1 &&
      r.0.sds.newSds && r.0.out == st.out && r.0.sds.pending == st.sds.pending
  {
    if Dense(st.sds.queue) {
      EnqueueDense(st.sds.queue, sds.(tos := 0));
    }
  }

  /** When sending is allowed and the radio is ready, checkSds sends the
      first entry not sent yet: it is stamped with `now`, counted as one more
      try, becomes the pending SDS, and its encoding is the one command
      written; sending is then blocked until the next CMGS answer. */
  lemma CheckSdsSendsFirstTarget(cfg: Config, st: State, now: int)
    requires Live(st) && Ordered(st.sds.queue) && st.sds.cmgsReceived && Ready(st)
    requires FirstTarget(st.sds.queue) < |st.sds.queue|
    requires Encode(cfg, Tried(st.sds.queue, true, now)[FirstTarget(st.sds.queue)].sds) != []
    ensures var q := st.sds.queue; var t := FirstTarget(q);
      var s := q[t].sds.(nroftries := q[t].sds.nroftries + 1, tos := now);
      var r := CheckSds(cfg, st, now);
      Live(r.0) && r.1 && !r.0.sds.cmgsReceived && r.0.sds.pending == s &&
      r.0.out.written == st.out.written + [Terminated(Encode(cfg, s))] &&
      Entry(q[t].key, s) in r.0.sds.queue
  {
    var q := st.sds.queue;
    CheckTarget(q, true, now);
    TriedEntries(q, true, now);
  }

  /** When the radio is not ready, checkSds sends nothing and sending stays
      allowed. */
  lemma CheckSdsHoldsWhenBusy(cfg: Config, st: State, now: int)
    requires Live(st) && Ordered(st.sds.queue) && st.sds.cmgsReceived && !Ready(st)
    ensures var r := CheckSds(cfg, st, now);
      r.0.sds.cmgsReceived && r.0.out == st.out && r.0.sds.pending == st.sds.pending
  {
    CheckSendsOnlyWhenReady(st.sds.queue, false, now);
  }

  /** An entry queued after the first one not sent yet comes through
      checkSds as it was. */
  lemma CheckSdsKeepsLater(cfg: Config, st: State, now: int, i: int)
    requires Live(st) && Ordered(st.sds.queue) && st.sds.cmgsReceived
    requires FirstTarget(st.sds.queue) < i < |st.sds.queue|
    ensures st.sds.queue[i] in CheckSds(cfg, st, now).0.sds.queue
  {
    CheckKeepsLater(st.sds.queue, Ready(st), now, i);
  }

  /** checkSds returns true while a CMGS answer is awaited, and otherwise
      exactly when its scan passed over an entry or sent one. */
  lemma CheckSdsResult(cfg: Config, st: State, now: int)
    requires Live(st) && Ordered(st.sds.queue)
    ensures var q := st.sds.queue;
      CheckSds(cfg, st, now).1 <==>
        !st.sds.cmgsReceived || 0 < FirstTarget(q) || (Ready(st) && FirstTarget(q) < |q|)
  {
    if st.sds.cmgsReceived {
      CheckResult(st.sds.queue, Ready(st), now);
      CheckSendsOnlyWhenReady(st.sds.queue, Ready(st), now);
    }
  }

  /** With the radio not ready or nothing waiting, checkSds sends nothing:
      only the scan's queue is new. */
  lemma CheckSdsQuiet(cfg: Config, st: State, now: int)
    requires Live(st) && Ordered(st.sds.queue) && st.sds.cmgsReceived
    requires !Ready(st) || FirstTarget(st.sds.queue) == |st.sds.queue|
    ensures CheckSds(cfg, st, now).0 == st.(sds := st.sds.(queue := Check(st.sds.queue, Ready(st), now).queue))
  {
    CheckSendsOnlyWhenReady(st.sds.queue, Ready(st), now);
  }

  /** After a call release, with sending allowed, the PEI state OK and the
      squelch closed, the first entry not sent yet goes out: the release
      is when queued SDS get their chance. */
  lemma CallReleasedSendsFirst(cfg: Config, st: State, line: string, now: int)
    requires Live(st) && Ordered(st.sds.queue) && st.sds.cmgsReceived
    requires st.pei.state == Classifier.Ok && !(st.radio.sqlOpen && st.radio.transmitting)
    requires FirstTarget(st.sds.queue) < |st.sds.queue|
    requires Encode(cfg, Tried(st.sds.queue, true, now)[FirstTarget(st.sds.queue)].sds) != []
    ensures var q := st.sds.queue; var t := FirstTarget(q);
      var s := q[t].sds.(nroftries := q[t].sds.nroftries + 1, tos := now);
      var r := HandleCallReleased(cfg, st, line, now);
      Live(r) && !r.sds.cmgsReceived && r.sds.pending == s &&
      r.out.written == st.out.written + [Terminated(Encode(cfg, s))] && Entry(q[t].key, s) in r.sds.queue
  {
    ReleasedSends(cfg, ReleaseCall(st, line, now), st, now);
  }

  /** checkSds on a state `x` ready to send, whose SDS state and output
      are those of `st`, sends the first entry of `st` not sent yet. */
  lemma ReleasedSends(cfg: Config, x: State, st: State, now: int)
    requires Live(x) && Ordered(x.sds.queue) && x.sds.cmgsReceived && Ready(x)
    requires x.sds == st.sds && x.out.written == st.out.written
    requires FirstTarget(st.sds.queue) < |st.sds.queue|
    requires Encode(cfg, Tried(st.sds.queue, true, now)[FirstTarget(st.sds.queue)].sds) != []
    ensures var q := st.sds.queue; var t := FirstTarget(q);
      var s := q[t].sds.(nroftries := q[t].sds.nroftries + 1, tos := now);
      var r := CheckSds(cfg, x, now).0;
      Live(r) && !r.sds.cmgsReceived && r.sds.pending == s &&
      r.out.written == st.out.written + [Terminated(Encode(cfg, s))] && Entry(q[t].key, s) in r.sds.queue
  {
    CheckSdsSendsFirstTarget(cfg, x, now);
  }

  /** The SDS `s` as checkSds sends it: stamped with `now`, one more try. */
  function SentCopy(s: Sds, now: int): Sds
  {
    s.(tos := now, nroftries := s.nroftries + 1)
  }

  /** What queueSds does with the SDS `s`, queued in `st` whose keys are 1
      to n, as seen in the state `r` it leaves:
      - while a CMGS answer is awaited, `s` is appended unsent under the key
        n + 1 and nothing is written;
      - new_sds is set, while a CMGS answer is awaited, when an older entry
        is passed over, when the radio is ready, or when `s` is incoming
        into an empty queue; otherwise it is cleared;
      - when sending is allowed but the radio is not ready, nothing is
        written and sending stays allowed;
      - when an older entry waits to be sent, `s` stays unsent under n + 1;
      - an incoming `s` with nothing older waiting stays under n + 1 and
        nothing is written;
      - an outgoing `s` with nothing older waiting and the radio not ready
        stays under n + 1, unsent, counted as one more try;
      - when sending is allowed, the radio is ready and no older entry
        waits, `s` goes out at once: it is stamped with `now`, counted as
        one more try, becomes the pending SDS, and its encoding is the one
        command written. */
  predicate Enqueued(cfg: Config, st: State, s: Sds, now: int, r: State)
    requires Dense(st.sds.queue)
  {
    var q := st.sds.queue;
    var e := Entry(|q| + 1, s.(tos := 0));
    var sent := SentCopy(s, now);
    (!st.sds.cmgsReceived ==>
      r.sds.queue == q + [e] && r.out == st.out && r.sds.pending == st.sds.pending) &&
    (Live(r) ==>
      (r.sds.newSds <==>
       !st.sds.cmgsReceived || 0 < FirstTarget(q) || Ready(st) || (q == [] && s.direction != Outgoing))) &&
    (st.sds.cmgsReceived && !Ready(st) ==> r.out == st.out && r.sds.cmgsReceived) &&
    (st.sds.cmgsReceived && FirstTarget(q) < |q| ==> e in r.sds.queue) &&
    (st.sds.cmgsReceived && FirstTarget(q) == |q| && s.direction != Outgoing ==>
      e in r.sds.queue && r.out == st.out && r.sds.cmgsReceived) &&
    (st.sds.cmgsReceived && !Ready(st) && FirstTarget(q) == |q| && s.direction == Outgoing ==>
      Entry(|q| + 1, s.(tos := 0, nroftries := s.nroftries + 1)) in r.sds.queue) &&
    (st.sds.cmgsReceived && Ready(st) && FirstTarget(q) == |q| && s.direction == Outgoing &&
     Encode(cfg, sent) != [] ==>
      Live(r) && !r.sds.cmgsReceived && r.sds.pending == sent &&
      r.out.written == st.out.written + [Terminated(Encode(cfg, sent))] &&
      Entry(|q| + 1, sent) in r.sds.queue)
  }

  /** queueSds does what Enqueued describes, whether a CMGS answer is
      awaited or not. */
  lemma QueueSdsEnqueues(cfg: Config, st: State, s: Sds, now: int)
    requires Live(st) && Dense(st.sds.queue)
    ensures Enqueued(cfg, st, s, now, QueueSds(cfg, st, s, now).0)
  {
    QueueSdsWhileWaiting(cfg, st, s, now);
    var q := st.sds.queue;
    if st.sds.cmgsReceived {
      QueueSdsNewSds(cfg, st, s, now);
    }
    if st.sds.cmgsReceived && !Ready(st) {
      QueueSdsWhenBusy(cfg, st, s, now);
    }
    if st.sds.cmgsReceived && FirstTarget(q) == |q| && s.direction != Outgoing {
      QueueSdsKeepsIncoming(cfg, st, s, now);
    }
    if st.sds.cmgsReceived && !Ready(st) && FirstTarget(q) == |q| && s.direction == Outgoing {
      QueueSdsTriesNew(cfg, st, s, now);
    }
    if st.sds.cmgsReceived && FirstTarget(q) < |q| {
      QueueSdsBehind(cfg, st, s, now);
    }
    if st.sds.cmgsReceived && Ready(st) && FirstTarget(q) == |q| && s.direction == Outgoing &&
       Encode(cfg, SentCopy(s, now)) != []
    {
      QueueSdsSendsNew(cfg, st, s, now);
    }
  }

  /** queueSds leaves the queue, the output, the pending SDS and the send
      flag as checkSds leaves them after the append. */
  lemma QueueSdsChecks(cfg: Config, st: State, s: Sds, now: int)
    requires Live(st) && Dense(st.sds.queue)
    ensures var r := QueueSds(cfg, st, s, now).0; var c := CheckSds(cfg, Appended(st, s), now).0;
      r.sds.queue == c.sds.queue && r.out == c.out && r.sds.pending == c.sds.pending &&
      r.sds.cmgsReceived == c.sds.cmgsReceived
  {
  }

  /** While the radio is not ready, queueSds writes nothing and sending
      stays allowed. */
  lemma QueueSdsWhenBusy(cfg: Config, st: State, s: Sds, now: int)
    requires Live(st) && Dense(st.sds.queue) && st.sds.cmgsReceived && !Ready(st)
    ensures var r := QueueSds(cfg, st, s, now).0;
      r.out == st.out && r.sds.cmgsReceived
  {
    QueueSdsChecks(cfg, st, s, now);
    CheckSdsHoldsWhenBusy(cfg, Appended(st, s), now);
  }

  /** queueSds keeps checkSds's result in new_sds unless checkSds threw. */
  lemma QueueSdsResult(cfg: Config, st: State, s: Sds, now: int)
    requires Live(st) && Ordered(st.sds.queue)
    ensures var r := QueueSds(cfg, st, s, now).0;
      Live(r) ==> r.sds.newSds == CheckSds(cfg, Appended(st, s), now).1
  {
  }

  /** With sending allowed, new_sds becomes true exactly when an older entry
      is passed over, the radio is ready, or `s` is an incoming SDS put into
      an empty queue. */
  lemma QueueSdsNewSds(cfg: Config, st: State, s: Sds, now: int)
    requires Live(st) && Dense(st.sds.queue) && st.sds.cmgsReceived
    ensures var r := QueueSds(cfg, st, s, now).0; var q := st.sds.queue;
      Live(r) ==> (r.sds.newSds <==> 0 < FirstTarget(q) || Ready(st) || (q == [] && s.direction != Outgoing))
  {
    QueueSdsResult(cfg, st, s, now);
    CheckSdsResult(cfg, Appended(st, s), now);
    AppendedDense(st, s);
    AppendedResult(st.sds.queue, Entry(|st.sds.queue| + 1, s.(tos := 0)), Ready(st));
  }

  /** An incoming `s` with nothing older waiting is passed over: it stays,
      nothing is written and sending stays allowed. */
  lemma QueueSdsKeepsIncoming(cfg: Config, st: State, s: Sds, now: int)
    requires Live(st) && Dense(st.sds.queue) && st.sds.cmgsReceived
    requires FirstTarget(st.sds.queue) == |st.sds.queue| && s.direction != Outgoing
    ensures var r := QueueSds(cfg, st, s, now).0;
      Entry(|st.sds.queue| + 1, s.(tos := 0)) in r.sds.queue && r.out == st.out && r.sds.cmgsReceived
  {
    QueueSdsChecks(cfg, st, s, now);
    AppendedPassed(st, s, Ready(st), now);
    CheckSdsQuiet(cfg, Appended(st, s), now);
    CheckErasesOnlyStale(Appended(st, s).sds.queue, Ready(st), now, |st.sds.queue|);
  }

  /** After the append of an incoming `s` to a queue with nothing waiting,
      nothing waits and the scan changes nothing. */
  lemma AppendedPassed(st: State, s: Sds, ready: bool, now: int)
    requires Dense(st.sds.queue) && FirstTarget(st.sds.queue) == |st.sds.queue| && s.direction != Outgoing
    ensures var q := Appended(st, s).sds.queue; var n := |st.sds.queue|;
      Live(Appended(st, s)) == Live(st) && Ready(Appended(st, s)) == Ready(st) &&
      Ordered(q) && |q| == n + 1 && FirstTarget(q) == n + 1 &&
      q[n] == Entry(n + 1, s.(tos := 0)) && !Stale(q[n].sds, now) && Tried(q, ready, now) == q
  {
    AppendedDense(st, s);
    FirstTargetPassed(st.sds.queue, Entry(|st.sds.queue| + 1, s.(tos := 0)));
  }

  /** An outgoing `s` with nothing older waiting and the radio not ready is
      tried but not sent: it stays unstamped with one more try. */
  lemma QueueSdsTriesNew(cfg: Config, st: State, s: Sds, now: int)
    requires Live(st) && Dense(st.sds.queue) && st.sds.cmgsReceived && !Ready(st)
    requires FirstTarget(st.sds.queue) == |st.sds.queue| && s.direction == Outgoing
    ensures Entry(|st.sds.queue| + 1, s.(tos := 0, nroftries := s.nroftries + 1)) in
      QueueSds(cfg, st, s, now).0.sds.queue
  {
    QueueSdsChecks(cfg, st, s, now);
    AppendedTried(st, s, now);
    CheckSdsQuiet(cfg, Appended(st, s), now);
    CheckTarget(Appended(st, s).sds.queue, false, now);
  }

  /** After the append of an outgoing `s` to a queue with nothing waiting,
      `s` is the entry the scan tries; while the radio is busy it only gains
      a try. */
  lemma AppendedTried(st: State, s: Sds, now: int)
    requires Dense(st.sds.queue) && FirstTarget(st.sds.queue) == |st.sds.queue| && s.direction == Outgoing
    ensures var q := Appended(st, s).sds.queue; var n := |st.sds.queue|;
      Live(Appended(st, s)) == Live(st) && Ready(Appended(st, s)) == Ready(st) &&
      Ordered(q) && FirstTarget(q) == n < |q| &&
      Tried(q, false, now)[n] == Entry(n + 1, s.(tos := 0, nroftries := s.nroftries + 1))
  {
    AppendedDense(st, s);
    TriedLastBusy(st.sds.queue, Entry(|st.sds.queue| + 1, s.(tos := 0)), now);
  }

  /** Behind an older entry not sent yet, `s` stays in the queue. */
  lemma QueueSdsBehind(cfg: Config, st: State, s: Sds, now: int)
    requires Live(st) && Dense(st.sds.queue) && st.sds.cmgsReceived
    requires FirstTarget(st.sds.queue) < |st.sds.queue|
    ensures Entry(|st.sds.queue| + 1, s.(tos := 0)) in QueueSds(cfg, st, s, now).0.sds.queue
  {
    QueueSdsChecks(cfg, st, s, now);
    CheckKeepsAppended(cfg, st, s, now);
  }

  /** checkSds keeps an entry appended behind one waiting to be sent. */
  lemma CheckKeepsAppended(cfg: Config, st: State, s: Sds, now: int)
    requires Live(st) && Dense(st.sds.queue) && st.sds.cmgsReceived
    requires FirstTarget(st.sds.queue) < |st.sds.queue|
    ensures Entry(|st.sds.queue| + 1, s.(tos := 0)) in CheckSds(cfg, Appended(st, s), now).0.sds.queue
  {
    AppendedBehind(st, s);
    CheckSdsKeepsLater(cfg, Appended(st, s), now, |st.sds.queue|);
  }

  /** After the append behind an entry waiting to be sent, the new entry
      sits at index n, past the first one waiting. */
  lemma AppendedBehind(st: State, s: Sds)
    requires Dense(st.sds.queue) && FirstTarget(st.sds.queue) < |st.sds.queue|
    ensures var r := Appended(st, s);
      Live(r) == Live(st) && Ordered(r.sds.queue) && r.sds.cmgsReceived == st.sds.cmgsReceived &&
      FirstTarget(r.sds.queue) < |st.sds.queue| < |r.sds.queue| &&
      r.sds.queue[|st.sds.queue|] == Entry(|st.sds.queue| + 1, s.(tos := 0))
  {
    AppendedDense(st, s);
    FirstTargetAppend(st.sds.queue, Entry(|st.sds.queue| + 1, s.(tos := 0)));
  }

  /** With the radio ready and nothing older to send, `s` goes out at once. */
  lemma QueueSdsSendsNew(cfg: Config, st: State, s: Sds, now: int)
    requires Live(st) && Dense(st.sds.queue) && st.sds.cmgsReceived && Ready(st)
    requires FirstTarget(st.sds.queue) == |st.sds.queue| && s.direction == Outgoing
    requires Encode(cfg, SentCopy(s, now)) != []
    ensures var r := QueueSds(cfg, st, s, now).0; var sent := SentCopy(s, now);
      Live(r) && !r.sds.cmgsReceived && r.sds.pending == sent &&
      r.out.written == st.out.written + [Terminated(Encode(cfg, sent))] &&
      Entry(|st.sds.queue| + 1, sent) in r.sds.queue
  {
    QueueSdsChecks(cfg, st, s, now);
    AppendedLast(st, s, now);
    CheckSdsSendsFirstTarget(cfg, Appended(st, s), now);
  }

  /** After the append to a queue with no entry waiting, the new entry is
      the first one waiting, and the scan's copy of it is SentCopy(s, now). */
  lemma AppendedLast(st: State, s: Sds, now: int)
    requires Dense(st.sds.queue) && FirstTarget(st.sds.queue) == |st.sds.queue| && s.direction == Outgoing
    ensures var r := Appended(st, s); var q := r.sds.queue; var t := FirstTarget(q);
      Live(r) == Live(st) && Ready(r) == Ready(st) && Ordered(q) && r.out == st.out &&
      r.sds.cmgsReceived == st.sds.cmgsReceived && t == |st.sds.queue| < |q| &&
      q[t].key == |st.sds.queue| + 1 &&
      q[t].sds.(nroftries := q[t].sds.nroftries + 1, tos := now) == SentCopy(s, now) &&
      Tried(q, true, now)[t].sds == SentCopy(s, now)
  {
    var e := Entry(|st.sds.queue| + 1, s.(tos := 0));
    AppendedDense(st, s);
    TriedLast(st.sds.queue, e, now);
    SentCopyOf(s, now);
  }

  /** The scan's copy of `s` entered unsent is SentCopy(s, now). */
  lemma SentCopyOf(s: Sds, now: int)
    ensures s.(tos := 0).(nroftries := s.(tos := 0).nroftries + 1, tos := now) == SentCopy(s, now)
  {
  }

  /** A failure report for the last SDS sent clears the stamp of the pending
      copy only. When every queued entry has been sent once, nothing is sent
      again: the failed SDS is not retried, nothing is written, every entry
      keeps its stamp and its tries, and only old ones may be erased. */
  lemma HandleCmgsFailureNotRetried(cfg: Config, st: State, line: string, now: int)
    requires Live(st) && Ordered(st.sds.queue) && FirstTarget(st.sds.queue) == |st.sds.queue|
    requires ParseCmgs(line).instance == st.sds.lastInstance && ParseCmgs(line).status == SdsSendFailed
    ensures var r := HandleCmgs(cfg, st, line, now);
      r.sds.cmgsReceived && r.out == st.out && r.sds.pending == st.sds.pending.(tos := 0) &&
      (forall e :: e in r.sds.queue ==> e in st.sds.queue) &&
      (forall i :: 0 <= i < |st.sds.queue| && !Stale(st.sds.queue[i].sds, now) ==>
        st.sds.queue[i] in r.sds.queue)
  {
    CheckSendsOnlyWhenReady(st.sds.queue, Ready(st), now);
    CheckKeepsSent(st.sds.queue, Ready(st), now);
  }

  /** A CMGS answer with any other status, or for another instance, leaves
      the pending copy as it was; with every entry sent once, nothing is
      written, every entry keeps its stamp and its tries, and only old ones
      may be erased. */
  lemma HandleCmgsOtherKeepsPending(cfg: Config, st: State, line: string, now: int)
    requires Live(st) && Ordered(st.sds.queue) && FirstTarget(st.sds.queue) == |st.sds.queue|
    requires ParseCmgs(line).instance != st.sds.lastInstance || ParseCmgs(line).status != SdsSendFailed
    ensures var r := HandleCmgs(cfg, st, line, now);
      r.sds.cmgsReceived && r.out == st.out && r.sds.pending == st.sds.pending &&
      (forall e :: e in r.sds.queue ==> e in st.sds.queue) &&
      (forall i :: 0 <= i < |st.sds.queue| && !Stale(st.sds.queue[i].sds, now) ==>
        st.sds.queue[i] in r.sds.queue)
  {
    CheckSendsOnlyWhenReady(st.sds.queue, Ready(st), now);
    CheckKeepsSent(st.sds.queue, Ready(st), now);
  }

  // ---------------------------------------------------------------------
  // Properties: calls
  // ---------------------------------------------------------------------

  /** The step handleCallBegin takes on a line it could parse. */
  lemma CallBeginParsed(cfg: Config, st: State, line: string, now: int, ci: CallInfo, t: string)
    requires Live(st) && Ordered(st.sds.queue) && ParseCticn(line) == Parsed(ci, t)
    ensures var st1 := SquelchOpen(st, true);
      HandleCallBegin(cfg, st, line, now) ==
        if t !in st.calls.userdata then NewCaller(cfg, st1, ci, t, now)
        else KnownCaller(st1, ci, t, now)
  {
    assert |line| >= 65;
  }

  /** An unknown originator is stored as a default user under its TSI;
      the QSO is not touched and nothing is announced. Nothing is written
      either while a CMGS answer is awaited or while the squelch, opened
      for the call, keeps the radio from sending. */
  lemma CallBeginNewUser(cfg: Config, st: State, line: string, now: int, ci: CallInfo, t: string)
    requires Live(st) && Ordered(st.sds.queue)
    requires ParseCticn(line) == Parsed(ci, t) && t !in st.calls.userdata
    ensures var r := HandleCallBegin(cfg, st, line, now);
      r.calls.userdata == st.calls.userdata[t := NewUser(cfg)] &&
      r.calls.callinfo == st.calls.callinfo[ci.oIssi := ci] &&
      r.calls.qso == st.calls.qso &&
      (!st.sds.cmgsReceived || !st.radio.transmitting ==> r.out == st.out)
  {
    var st1 := SquelchOpen(st, true);
    assert st1.sds == st.sds && st1.calls == st.calls;
    assert HandleCallBegin(cfg, st, line, now) == NewCaller(cfg, st1, ci, t, now) by {
      CallBeginParsed(cfg, st, line, now, ci, t);
    }
    if st.sds.cmgsReceived && !st.radio.transmitting {
      var x := st1.(calls := st1.calls.(callinfo := st1.calls.callinfo[ci.oIssi := ci],
                                        userdata := st1.calls.userdata[t := NewUser(cfg)]));
      var q := Insert(x.sds.queue, |x.sds.queue| + 1, WelcomeSds(cfg, t).(tos := 0));
      CheckSdsHoldsWhenBusy(cfg, x.(sds := x.sds.(queue := q)), now);
    }
  }

  /** ... and gets the info SDS queued as Enqueued describes, in the state
      with the squelch open; unless the transmitter is on, the open squelch
      holds the SDS back and nothing is written. */
  lemma CallBeginQueuesInfo(cfg: Config, st: State, line: string, now: int, ci: CallInfo, t: string)
    requires Live(st) && Dense(st.sds.queue)
    requires ParseCticn(line) == Parsed(ci, t) && t !in st.calls.userdata
    ensures var r := HandleCallBegin(cfg, st, line, now);
      Enqueued(cfg, SquelchOpen(st, true), WelcomeSds(cfg, t), now, r) &&
      (!st.radio.transmitting ==> r.out == st.out)
  {
    CallBeginUnknownStep(cfg, st, line, now, ci, t);
    NewCallerQueue(cfg, st, now, ci, t);
  }

  lemma CallBeginUnknownStep(cfg: Config, st: State, line: string, now: int, ci: CallInfo, t: string)
    requires Live(st) && Ordered(st.sds.queue)
    requires ParseCticn(line) == Parsed(ci, t) && t !in st.calls.userdata
    ensures HandleCallBegin(cfg, st, line, now) == NewCaller(cfg, SquelchOpen(st, true), ci, t, now)
  {
    CallBeginParsed(cfg, st, line, now, ci, t);
  }

  lemma NewCallerQueue(cfg: Config, st: State, now: int, ci: CallInfo, t: string)
    requires Live(st) && Dense(st.sds.queue)
    ensures Enqueued(cfg, SquelchOpen(st, true), WelcomeSds(cfg, t), now,
                     NewCaller(cfg, SquelchOpen(st, true), ci, t, now))
  {
    var st1 := SquelchOpen(st, true);
    var x := st1.(calls := st1.calls.(callinfo := st1.calls.callinfo[ci.oIssi := ci],
                                      userdata := st1.calls.userdata[t := NewUser(cfg)]));
    QueueSdsEnqueues(cfg, x, WelcomeSds(cfg, t), now);
    assert x.sds == st1.sds && x.out == st1.out && x.pei == st1.pei && x.radio == st1.radio;
  }

  /** A known originator is stamped with `now`, opens the QSO, is among its
      members exactly once, and the group call is announced; nothing is sent. */
  lemma CallBeginKnownUser(cfg: Config, st: State, line: string, now: int, ci: CallInfo, t: string)
    requires Live(st) && Ordered(st.sds.queue) && NoDuplicates(st.calls.qso.members)
    requires ParseCticn(line) == Parsed(ci, t) && t in st.calls.userdata
    ensures var u := st.calls.userdata[t];
      var r := HandleCallBegin(cfg, st, line, now);
      r.calls.userdata == st.calls.userdata[t := u.(lastActivity := now)] &&
      r.calls.callinfo == st.calls.callinfo[ci.oIssi := ci] &&
      r.calls.qso.tsi == t && r.calls.qso.start == now && r.calls.qso.stop == st.calls.qso.stop &&
      u.call in r.calls.qso.members && NoDuplicates(r.calls.qso.members) &&
      r.out.written == st.out.written && r.out.events == st.out.events + [GroupCallBegin(ci.oIssi, ci.dIssi)] &&
      r.sds == st.sds
  {
    CallBeginParsed(cfg, st, line, now, ci, t);
  }

  /** Releasing a call after a QSO ends it, and a later call begin of a
      known user opens a new one with that user as the only member. */
  lemma ReleaseThenBegin(cfg: Config, st: State, rel: string, line: string, now: int, later: int,
                         ci: CallInfo, t: string)
    requires Live(st) && Ordered(st.sds.queue)
    requires ParseCticn(line) == Parsed(ci, t) && t in st.calls.userdata
    requires Live(HandleCallReleased(cfg, st, rel, now))
    ensures var r1 := HandleCallReleased(cfg, st, rel, now);
      var r2 := HandleCallBegin(cfg, r1, line, later);
      r2.calls.qso.members == [st.calls.userdata[t].call] &&
      r2.calls.qso.start == later && r2.calls.qso.stop == now
  {
    var r1 := HandleCallReleased(cfg, st, rel, now);
    assert NoDuplicates(r1.calls.qso.members);
    CallBeginKnownUser(cfg, r1, line, later, ci, t);
  }

  // ---------------------------------------------------------------------
  // Keys stay dense
  // ---------------------------------------------------------------------

  /** The keys of the queue are 1 to n and no entry is old at `now`, so
      checkSds erases nothing and queueSds's key n + 1 is always new. */
  predicate DenseAt(st: State, now: int)
  {
    Dense(st.sds.queue) && NoneStale(st.sds.queue, now)
  }

  /** With no old entry, checkSds erases nothing and stamps only with
      `now`: the keys stay 1 to n. */
  lemma CheckSdsKeepsDense(cfg: Config, st: State, now: int)
    requires Live(st) && DenseAt(st, now)
    ensures DenseAt(CheckSds(cfg, st, now).0, now)
  {
    CheckKeepsDense(st.sds.queue, Ready(st), now);
  }

  /** The append keeps the keys dense, and the new entry is not stamped. */
  lemma AppendedDenseAt(st: State, s: Sds, now: int)
    requires DenseAt(st, now)
    ensures DenseAt(Appended(st, s), now) && Live(Appended(st, s)) == Live(st)
  {
    AppendedDense(st, s);
  }

  /** queueSds keeps the keys 1 to n + 1. */
  lemma QueueSdsKeepsDense(cfg: Config, st: State, s: Sds, now: int)
    requires Live(st) && DenseAt(st, now)
    ensures DenseAt(QueueSds(cfg, st, s, now).0, now)
  {
    QueueSdsChecks(cfg, st, s, now);
    AppendedDenseAt(st, s, now);
    CheckSdsKeepsDense(cfg, Appended(st, s), now);
  }

  /** handleCmgs changes only the pending copy before checkSds. */
  lemma HandleCmgsKeepsDense(cfg: Config, st: State, line: string, now: int)
    requires Live(st) && DenseAt(st, now)
    ensures DenseAt(HandleCmgs(cfg, st, line, now), now)
  {
    var c := ParseCmgs(line);
    var pending := if st.sds.lastInstance == c.instance && c.status == SdsSendFailed
                   then st.sds.pending.(tos := 0) else st.sds.pending;
    CheckSdsKeepsDense(cfg, st.(sds := st.sds.(pending := pending, cmgsReceived := true, lastInstance := c.instance)), now);
  }

  /** handleCallReleased leaves the queue to checkSds. */
  lemma HandleCallReleasedKeepsDense(cfg: Config, st: State, line: string, now: int)
    requires Live(st) && DenseAt(st, now)
    ensures DenseAt(HandleCallReleased(cfg, st, line, now), now)
  {
    CheckSdsKeepsDense(cfg, ReleaseCall(st, line, now), now);
  }

  /** handleCallBegin queues at most the info SDS. */
  lemma HandleCallBeginKeepsDense(cfg: Config, st: State, line: string, now: int)
    requires Live(st) && DenseAt(st, now)
    ensures DenseAt(HandleCallBegin(cfg, st, line, now), now)
  {
    if |line| >= 65 {
      var st1 := SquelchOpen(st, true);
      assert st1.sds == st.sds && Live(st1);
      match ParseCticn(line)
      case TooShort =>
      case OutOfRange =>
      case Parsed(ci, t) =>
        if t !in st1.calls.userdata {
          NewCallerKeepsDense(cfg, st1, ci, t, now);
        }
    }
  }

  /** A new caller's info SDS goes through queueSds. */
  lemma NewCallerKeepsDense(cfg: Config, st: State, ci: CallInfo, t: string, now: int)
    requires Live(st) && DenseAt(st, now)
    ensures DenseAt(NewCaller(cfg, st, ci, t, now), now)
  {
    var x := st.(calls := st.calls.(callinfo := st.calls.callinfo[ci.oIssi := ci],
                                    userdata := st.calls.userdata[t := NewUser(cfg)]));
    QueueSdsKeepsDense(cfg, x, WelcomeSds(cfg, t), now);
  }

  /** The status answers touch the queue only through checkSds. */
  lemma StatusAnswerKeepsDense(cfg: Config, st: State, kind: Classifier.Kind, line: string, now: int)
    requires Live(st) && DenseAt(st, now) && kind in StatusKinds
    ensures DenseAt(StatusAnswer(cfg, st, kind, line, now), now)
  {
    if kind == Classifier.Ok {
      CheckSdsKeepsDense(cfg, st.(pei := st.pei.(state := Classifier.Ok)), now);
    } else if kind == Classifier.Cmgs {
      HandleCmgsKeepsDense(cfg, st, line, now);
    }
  }

  /** The call answers touch the queue only through queueSds and checkSds. */
  lemma CallAnswerKeepsDense(cfg: Config, st: State, kind: Classifier.Kind, line: string, now: int)
    requires Live(st) && DenseAt(st, now) && kind !in StatusKinds
    ensures DenseAt(CallAnswer(cfg, st, kind, line, now), now)
  {
    if kind == Classifier.CallBegin {
      HandleCallBeginKeepsDense(cfg, st, line, now);
    } else if kind == Classifier.CallReleased {
      HandleCallReleasedKeepsDense(cfg, st, line, now);
    }
  }

  /** Every answer of the radio keeps the keys 1 to n and no entry old. */
  lemma PeiAnswerKeepsDense(cfg: Config, st: State, line: string, now: int)
    requires Live(st) && DenseAt(st, now)
    ensures DenseAt(HandlePeiAnswer(cfg, st, line, now), now)
  {
    var kind := Classifier.HandleMessage(line, st.pei.state);
    if kind in StatusKinds {
      StatusAnswerKeepsDense(cfg, st, kind, line, now);
    } else {
      CallAnswerKeepsDense(cfg, st, kind, line, now);
    }
  }

  /** Over any run of lines the keys stay 1 to n: with a clock that does
      not run backwards no entry gets old, nothing is erased, and every
      SDS queued gets a key of its own. */
  lemma {:induction false} AnswerAllKeepsDense(cfg: Config, st: State, lines: seq<string>, now: int)
    requires Live(st) && DenseAt(st, now)
    ensures DenseAt(AnswerAll(cfg, st, lines, now), now)
    decreases |lines|
  {
    if lines != [] {
      var st1 := HandlePeiAnswer(cfg, st, lines[0], now);
      PeiAnswerKeepsDense(cfg, st, lines[0], now);
      if !st1.out.aborted {
        AnswerAllKeepsDense(cfg, st1, lines[1..], now);
      }
    }
  }

  /** A chunk received keeps the keys 1 to n. */
  lemma ReceiveKeepsDense(cfg: Config, st: State, buf: string, chunk: string, now: int)
    requires Live(st) && DenseAt(st, now)
    ensures DenseAt(Receive(cfg, st, buf, chunk, now).0, now)
  {
    var st1 := st.(pei := st.pei.(comTimer := false));
    DrainAnswersLines(cfg, st1, buf + CString(chunk), now);
    AnswerAllKeepsDense(cfg, st1, Assemble(buf + CString(chunk)).lines, now);
  }
}
