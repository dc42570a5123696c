/** The class TetraLogic: the member state the PEI handling works on, held
    in fields and updated in place by the member functions. The members of
    the source are grouped into five record fields, one per concern (the
    outbound SDS bookkeeping, the PEI, the calls, the radio, the output),
    plus the receive buffer. Every method is proved to leave the fields as
    the matching step of Station computes from the fields it started with
    (Snapshot), so the properties proved of Station hold of the class. */
module TetraLogic {
  import opened Basics
  import opened CStrings
  import opened Lines
  import Classifier
  import opened Identity
  import opened Parsers
  import opened Outbox
  import opened Station

  class TetraLogic {
    const cfg: Config

    /** sdsQueue, pending_sds, cmgs_received, last_sdsinstance, new_sds. */
    var sds: Outbound
    /** peistate, peirequest, m_cmds and the PEI timers. */
    var pei: Pei
    /** userdata, callinfo, Qso, dmo_rep_gw. */
    var calls: Calls
    /** inTransmission, talkgroup_up, the modem squelch, the transmitter. */
    var radio: Radio
    /** What was written to the PEI and handed to the event handler. */
    var out: Output
    /** Characters received from the PEI that do not form a line yet. */
    var peistream: string

    /** The fields as one Station state (all but peistream). */
    function Snapshot(): State
      reads this
    {
      State(sds, pei, calls, radio, out)
    }

    /** Nothing has thrown and the queue is in key order. */
    predicate Running()
      reads this
    {
      !out.aborted && Ordered(sds.queue)
    }

    constructor(cfg: Config, peistate: Classifier.Kind, peirequest: PeiRequest, lastSdsInstance: int)
      ensures this.cfg == cfg && peistream == []
      ensures Snapshot() == Initial(peistate, peirequest, lastSdsInstance)
    {
      this.cfg := cfg;
      sds := Outbound([], BlankSds, true, lastSdsInstance, false);
      pei := Pei(peistate, peirequest, [], false, false);
      calls := Calls(map[], map[], QsoInfo("", 0, 0, []), map[]);
      radio := Radio(false, false, false, false);
      out := Output([], [], false);
      peistream := [];
    }

    method SendPei(cmd: string)
      requires !out.aborted
      modifies this
      ensures peistream == old(peistream)
      ensures Snapshot() == Station.SendPei(old(Snapshot()), cmd)
    {
      if cmd == [] {
        out := out.(aborted := true);
        return;
      }
      out := out.(written := out.written + [Terminated(cmd)]);
      pei := pei.(comTimer := true);
    }

    method SquelchOpen(isOpen: bool)
      modifies this
      ensures peistream == old(peistream)
      ensures Snapshot() == Station.SquelchOpen(old(Snapshot()), isOpen)
    {
      if radio.transmitting {
        return;
      }
      radio := radio.(sqlOpen := isOpen);
    }

    method InitPei()
      requires !out.aborted
      modifies this
      ensures peistream == old(peistream)
      ensures Snapshot() == Station.InitPei(old(Snapshot()))
    {
      ghost var st := Snapshot();
      if pei.request == AtCmdWait {
        pei := pei.(breakTimer := true);
      }
      assert Snapshot() == if st.pei.request == AtCmdWait then st.(pei := st.pei.(breakTimer := true)) else st;
      if pei.cmds != [] {
        SendPei(pei.cmds[0]);
        if out.aborted {
          return;
        }
        pei := pei.(cmds := pei.cmds[1..]);
      } else if pei.request == Init {
        SendPei(CnumfQuery);
        out := out.(events := out.events + [PeiInitFinished]);
        pei := pei.(request := InitComplete);
      }
    }

    /** checkSds: the scan runs on the queue, the new queue is stored, the
        SDS found goes out, and the old entries met are erased after it. */
    method CheckSds(now: int) returns (retsds: bool)
      requires Running()
      modifies this
      ensures peistream == old(peistream)
      ensures (Snapshot(), retsds) == Station.CheckSds(cfg, old(Snapshot()), now)
    {
      if !sds.cmgsReceived {
        return true;
      }
      ghost var st := Snapshot();
      CheckSdsSteps(cfg, st, now);
      var ready := pei.state == Classifier.Ok && !radio.inTransmission && !radio.sqlOpen;
      var queue, todelete, t, r := Scan(sds.queue, ready, now);
      retsds := r;
      sds := sds.(queue := queue);
      if ready && t < |queue| {
        sds := sds.(cmgsReceived := false, pending := queue[t].sds);
        assert Snapshot() == st.(sds := st.sds.(queue := queue, cmgsReceived := false, pending := queue[t].sds));
        SendPei(Encode(cfg, queue[t].sds));
        if out.aborted {
          return;
        }
      }
      var rest := EraseAll(queue, todelete);
      sds := sds.(queue := rest);
    }

    method QueueSds(s: Sds, now: int) returns (size: int)
      requires Running()
      modifies this
      ensures peistream == old(peistream)
      ensures (Snapshot(), size) == Station.QueueSds(cfg, old(Snapshot()), s, now)
    {
      ghost var st := Snapshot();
      sds := sds.(queue := Insert(sds.queue, |sds.queue| + 1, s.(tos := 0)));
      assert Snapshot() == Appended(st, s);
      var r := CheckSds(now);
      if !out.aborted {
        sds := sds.(newSds := r);
      }
      size := |sds.queue|;
    }

    method HandleCmgs(line: string, now: int)
      requires Running()
      modifies this
      ensures peistream == old(peistream)
      ensures Snapshot() == Station.HandleCmgs(cfg, old(Snapshot()), line, now)
    {
      ghost var st := Snapshot();
      var c := ParseCmgs(line);
      if sds.lastInstance == c.instance && c.status == SdsSendFailed {
        sds := sds.(pending := sds.pending.(tos := 0));
      }
      sds := sds.(cmgsReceived := true, lastInstance := c.instance);
      ghost var pending := if st.sds.lastInstance == c.instance && c.status == SdsSendFailed
                           then st.sds.pending.(tos := 0) else st.sds.pending;
      assert Snapshot() == st.(sds := st.sds.(pending := pending, cmgsReceived := true, lastInstance := c.instance));
      var _ := CheckSds(now);
    }

    method HandleCallBegin(line: string, now: int)
      requires Running()
      modifies this
      ensures peistream == old(peistream)
      ensures Snapshot() == Station.HandleCallBegin(cfg, old(Snapshot()), line, now)
    {
      if |line| < 65 {
        return;
      }
      SquelchOpen(true);
      match ParseCticn(line)
      case TooShort =>
      case OutOfRange =>
        out := out.(aborted := true);
      case Parsed(ci, oTsi) =>
        if oTsi !in calls.userdata {
          NewCaller(ci, oTsi, now);
        } else {
          KnownCaller(ci, oTsi, now);
        }
    }

    method NewCaller(ci: CallInfo, oTsi: string, now: int)
      requires Running()
      modifies this
      ensures peistream == old(peistream)
      ensures Snapshot() == Station.NewCaller(cfg, old(Snapshot()), ci, oTsi, now)
    {
      ghost var st := Snapshot();
      calls := calls.(callinfo := calls.callinfo[ci.oIssi := ci]);
      calls := calls.(userdata := calls.userdata[oTsi := NewUser(cfg)]);
      assert Snapshot() == st.(calls := st.calls.(callinfo := st.calls.callinfo[ci.oIssi := ci],
                                                  userdata := st.calls.userdata[oTsi := NewUser(cfg)]));
      var _ := QueueSds(WelcomeSds(cfg, oTsi), now);
    }

    method KnownCaller(ci: CallInfo, oTsi: string, now: int)
      requires oTsi in calls.userdata
      modifies this
      ensures peistream == old(peistream)
      ensures Snapshot() == Station.KnownCaller(old(Snapshot()), ci, oTsi, now)
    {
      var user := calls.userdata[oTsi];
      calls := calls.(callinfo := calls.callinfo[ci.oIssi := ci]);
      calls := calls.(userdata := calls.userdata[oTsi := user.(lastActivity := now)]);
      calls := calls.(qso := calls.qso.(tsi := oTsi, start := now));
      if user.call !in calls.qso.members {
        calls := calls.(qso := calls.qso.(members := calls.qso.members + [user.call]));
      }
      out := out.(events := out.events + [GroupCallBegin(ci.oIssi, ci.dIssi)]);
    }

    method HandleTransmissionEnd()
      modifies this
      ensures peistream == old(peistream)
      ensures Snapshot() == Station.HandleTransmissionEnd(old(Snapshot()))
    {
      SquelchOpen(false);
      out := out.(events := out.events + [GroupCallEnd]);
    }

    method HandleTxGrant()
      modifies this
      ensures peistream == old(peistream)
      ensures Snapshot() == Station.HandleTxGrant(old(Snapshot()))
    {
      SquelchOpen(true);
      out := out.(events := out.events + [TxGrant]);
    }

    method HandleCallReleased(line: string, now: int)
      requires Running()
      modifies this
      ensures peistream == old(peistream)
      ensures Snapshot() == Station.HandleCallReleased(cfg, old(Snapshot()), line, now)
    {
      ReleaseCall(line, now);
      var _ := CheckSds(now);
    }

    method ReleaseCall(line: string, now: int)
      modifies this
      ensures peistream == old(peistream)
      ensures Snapshot() == Station.ReleaseCall(old(Snapshot()), line, now)
    {
      ghost var st0 := Snapshot();
      calls := calls.(qso := calls.qso.(stop := now));
      ghost var st1 := Snapshot();
      assert st1 == st0.(calls := st0.calls.(qso := st0.calls.qso.(stop := now)));
      var cause := CallReleaseCause(line);
      if radio.sqlOpen {
        SquelchOpen(false);
        out := out.(events := out.events + [OutOfRangeEnd(cause)]);
      } else {
        out := out.(events := out.events + [CallEnd(cause)]);
      }
      ghost var st2 := Snapshot();
      assert st2 == if st1.radio.sqlOpen then Emit(Station.SquelchOpen(st1, false), OutOfRangeEnd(cause))
                    else Emit(st1, CallEnd(cause));
      if calls.qso.tsi !in calls.userdata {
        calls := calls.(userdata := calls.userdata[calls.qso.tsi := BlankUser]);
      }
      radio := radio.(talkgroupUp := false);
      calls := calls.(qso := calls.qso.(members := []));
      radio := radio.(inTransmission := false);
    }

    method HandleCtdgr(line: string)
      modifies this
      ensures peistream == old(peistream)
      ensures Snapshot() == Station.HandleCtdgr(old(Snapshot()), line)
    {
      var r := ParseCtdgr(line);
      if r.Some? {
        StoreGateway(r.value);
      }
    }

    method StoreGateway(d: Ctdgr)
      modifies this
      ensures peistream == old(peistream)
      ensures Snapshot() == Station.StoreGateway(old(Snapshot()), d)
    {
      var gws := if d.issi in calls.dmoRepGw then calls.dmoRepGw
                 else calls.dmoRepGw[d.issi := DmoRpt(d.issi, d.mni, d.state)];
      calls := calls.(dmoRepGw := gws);
      out := out.(events := out.events + [DmoGwRpt(d.dmct, d.issi, d.mni, d.state)]);
    }

    method HandleClvl(line: string)
      modifies this
      ensures peistream == old(peistream)
      ensures Snapshot() == Station.HandleClvl(old(Snapshot()), line)
    {
      out := out.(events := out.events + [AudioLevel(ParseClvl(line))]);
    }

    method GetAiMode(line: string)
      modifies this
      ensures peistream == old(peistream)
      ensures Snapshot() == Station.GetAiMode(old(Snapshot()), line)
    {
      match AiMode(line)
      case None =>
      case Some(t) =>
        out := out.(events := out.events + [TetraMode(t)]);
    }

    method HandleCnumf(line: string)
      modifies this
      ensures peistream == old(peistream)
      ensures Snapshot() == Station.HandleCnumf(cfg, old(Snapshot()), line)
    {
      match CnumfCheck(cfg.mcc, cfg.mnc, cfg.issi, line)
      case None =>
        out := out.(aborted := true);
      case Some(_) =>
        pei := pei.(request := InitComplete);
    }

    /** handlePeiAnswer: the switch on the kind of the line, then initPei
        when an OK or ERROR answer arrives during INIT. */
    method HandlePeiAnswer(line: string, now: int)
      requires Running()
      modifies this
      ensures peistream == old(peistream)
      ensures Snapshot() == Station.HandlePeiAnswer(cfg, old(Snapshot()), line, now)
    {
      var kind := Classifier.HandleMessage(line, pei.state);
      HandleAnswer(kind, line, now);
      if !out.aborted && pei.request == Init && (kind == Classifier.Ok || kind == Classifier.Error) {
        InitPei();
      }
    }

    method HandleOk(now: int)
      requires Running()
      modifies this
      ensures peistream == old(peistream)
      ensures Snapshot() == Station.HandleOk(cfg, old(Snapshot()), now)
    {
      ghost var st := Snapshot();
      pei := pei.(state := Classifier.Ok);
      assert Snapshot() == st.(pei := st.pei.(state := Classifier.Ok));
      if sds.newSds && !radio.inTransmission {
        var _ := CheckSds(now);
      }
    }

    method HandleAnswer(kind: Classifier.Kind, line: string, now: int)
      requires Running()
      modifies this
      ensures peistream == old(peistream)
      ensures Snapshot() == Station.HandleAnswer(cfg, old(Snapshot()), kind, line, now)
    {
      if kind in StatusKinds {
        HandleStatus(kind, line, now);
      } else {
        HandleCallControl(kind, line, now);
      }
    }

    /** The answers about the radio and its messages. */
    method HandleStatus(kind: Classifier.Kind, line: string, now: int)
      requires Running() && kind in StatusKinds
      modifies this
      ensures peistream == old(peistream)
      ensures Snapshot() == Station.StatusAnswer(cfg, old(Snapshot()), kind, line, now)
    {
      ghost var st := Snapshot();
      match kind
      case Ok =>
        HandleOk(now);
      case Error =>
        pei := pei.(state := Classifier.Error);
      case Cnumf =>
        HandleCnumf(line);
      case Cmgs =>
        HandleCmgs(line, now);
      case OpMode =>
        GetAiMode(line);
      case Clvl =>
        HandleClvl(line);
    }

    /** The answers about calls and transmissions, and the kinds without a
        handler. */
    method HandleCallControl(kind: Classifier.Kind, line: string, now: int)
      requires Running() && kind !in StatusKinds
      modifies this
      ensures peistream == old(peistream)
      ensures Snapshot() == Station.CallAnswer(cfg, old(Snapshot()), kind, line, now)
    {
      ghost var st := Snapshot();
      match kind
      case CallBegin =>
        HandleCallBegin(line, now);
      case TransmissionEnd =>
        HandleTransmissionEnd();
      case CallReleased =>
        HandleCallReleased(line, now);
      case TransmissionGrant =>
        HandleTxGrant();
      case Ctdgr =>
        HandleCtdgr(line);
      case _ =>
    }

    /** onCharactersReceived: each complete line in the buffer is handled
        and erased with its "\r\n", until none is left or a handler throws.
        The loop works on a copy of peistream, stored back when it ends. */
    method OnCharactersReceived(chunk: string, now: int)
      requires Running()
      modifies this
      ensures (Snapshot(), peistream) == Receive(cfg, old(Snapshot()), old(peistream), chunk, now)
    {
      ghost var st := Snapshot();
      pei := pei.(comTimer := false);
      assert Snapshot() == st.(pei := st.pei.(comTimer := false));
      var buf := peistream + CString(chunk);
      ghost var goal := Drain(cfg, Snapshot(), buf, now);
      var found := Find(buf, CrLf);
      while found.Some?
        invariant Running()
        invariant found == Find(buf, CrLf)
        invariant Drain(cfg, Snapshot(), buf, now) == goal
        decreases |buf|
      {
        var f := found.value;
        if f == 0 {
          DrainEmptyLine(cfg, Snapshot(), buf, now);
        } else {
          DrainLine(cfg, Snapshot(), buf, now, f);
          HandlePeiAnswer(buf[..f], now);
          if out.aborted {
            peistream := buf;
            return;
          }
        }
        buf := buf[f + 2..];
        found := Find(buf, CrLf);
      }
      peistream := buf;
    }

    method OnComTimeout()
      modifies this
      ensures peistream == old(peistream)
      ensures Snapshot() == Station.OnComTimeout(old(Snapshot()))
    {
      out := out.(events := out.events + [PeiComTimeout]);
      pei := pei.(state := Classifier.Timeout);
    }

    method OnPeiActivityTimeout()
      requires !out.aborted
      modifies this
      ensures peistream == old(peistream)
      ensures Snapshot() == Station.OnPeiActivityTimeout(old(Snapshot()))
    {
      SendPei(KeepAlive);
      pei := pei.(request := CheckAt);
    }

    method OnPeiBreakCommandTimeout()
      requires !out.aborted
      modifies this
      ensures peistream == old(peistream)
      ensures Snapshot() == Station.OnPeiBreakCommandTimeout(old(Snapshot()))
    {
      ghost var st := Snapshot();
      pei := pei.(request := Init);
      assert Snapshot() == st.(pei := st.pei.(request := Init));
      InitPei();
    }

    method Initialize(initcmds: seq<string>)
      requires !out.aborted
      modifies this
      ensures peistream == old(peistream)
      ensures Snapshot() == Station.Initialize(old(Snapshot()), initcmds)
    {
      ghost var st := Snapshot();
      pei := pei.(cmds := initcmds);
      assert Snapshot() == st.(pei := st.pei.(cmds := initcmds));
      SendPei(Break);
      ghost var st1 := Snapshot();
      pei := pei.(request := AtCmdWait);
      assert Snapshot() == st1.(pei := st1.pei.(request := AtCmdWait));
      InitPei();
      if !out.aborted {
        out := out.(events := out.events + [Startup]);
      }
    }

    method InitGroupCall(gssi: int)
      requires !out.aborted
      modifies this
      ensures peistream == old(peistream)
      ensures Snapshot() == Station.InitGroupCall(old(Snapshot()), gssi)
    {
      ghost var st := Snapshot();
      radio := radio.(inTransmission := true);
      assert Snapshot() == st.(radio := st.radio.(inTransmission := true));
      SendPei(CircuitSetup);
      SendPei("ATD" + IntString(gssi));
      out := out.(events := out.events + [GroupCallInit(gssi)]);
    }

    method TransmitterStateChange(isTx: bool)
      requires !out.aborted
      modifies this
      ensures peistream == old(peistream)
      ensures Snapshot() == Station.TransmitterStateChange(cfg, old(Snapshot()), isTx)
    {
      ghost var st := Snapshot();
      radio := radio.(transmitting := isTx);
      assert Snapshot() == st.(radio := st.radio.(transmitting := isTx));
      if isTx {
        if !radio.talkgroupUp {
          InitGroupCall(cfg.gssi);
          radio := radio.(talkgroupUp := true);
        } else {
          SendPei(TxDemand);
        }
      } else {
        SendPei(TxCeased);
      }
    }

    method CfmSdsReceived(tsi: string, now: int)
      requires Running()
      modifies this
      ensures peistream == old(peistream)
      ensures Snapshot() == Station.CfmSdsReceived(cfg, old(Snapshot()), tsi, now)
    {
      var _ := QueueSds(Sds(tsi, "OK", Outgoing, UnsetType, 0, 0, ""), now);
    }

    method CfmTxtSdsReceived(message: string, tsi: string, now: int)
      requires Running()
      modifies this
      ensures peistream == old(peistream)
      ensures Snapshot() == Station.CfmTxtSdsReceived(cfg, old(Snapshot()), message, tsi, now)
    {
      match ConfirmationOf(message)
      case None =>
      case Some(m) =>
        var _ := QueueSds(Sds(tsi, m, Outgoing, AckSds, 0, 0, "confirmation Sds"), now);
    }

    method SdsPtyReceived(data: string, now: int)
      requires Running() && |data| >= 1
      modifies this
      ensures peistream == old(peistream)
      ensures Snapshot() == Station.SdsPtyReceived(cfg, old(Snapshot()), data, now)
    {
      var inj := ParseInjection(data);
      var kind := if inj.kind == "T" then TextType else RawType;
      var _ := QueueSds(Sds(inj.tsi, inj.message, Outgoing, kind, 0, 0, ""), now);
    }

    method SendWelcomeSds(tsi: string, r4s: int, now: int)
      requires Running()
      modifies this
      ensures peistream == old(peistream)
      ensures Snapshot() == Station.SendWelcomeSds(cfg, old(Snapshot()), tsi, r4s, now)
    {
      if r4s in cfg.sdsOnActivity {
        var _ := QueueSds(Sds(tsi, cfg.sdsOnActivity[r4s], Outgoing, UnsetType, 0, 0, "welcome sds"), now);
      }
    }
  }
}
