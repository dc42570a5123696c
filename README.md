# TetraLogic PEI driver — a Dafny model

This project models the core of `TetraLogic`, the svxlink logic core that
drives a TETRA radio over its Peripheral Equipment Interface (PEI). The PEI is
the AT-command interface of ETSI EN 300 392-5. The model covers:

- the line assembler that cuts the characters received from the PEI into
  answers (`onCharactersReceived`);
- the classifier that tags each answer (`handleMessage` with `rmatch`);
- the initialisation and keep-alive state machine (`initPei`, `sendPei`, the
  three timer callbacks, the OK/ERROR re-drive in `handlePeiAnswer`,
  `handleCnumf`);
- the TSI normalisation `getTSI` and the fixed-offset TSI slicing of
  `handleCallBegin` and `handleCnumf`;
- the call tracker (`handleCallBegin`, `handleCallReleased`,
  `transmitterStateChange`, `initGroupCall`);
- the outbound SDS queue (`queueSds`, `checkSds`, `handleCmgs`) and its
  producers (`cfmSdsReceived`, `cfmTxtSdsReceived`, `sdsPtyReceived`,
  `sendWelcomeSds`);
- the small parsers (`handleCtdgr`, `handleCtgs`, `handleClvl`, `getAiMode`,
  `handleTextSds`, `handleSimpleTextSds`).

The modules follow the concerns of the source:

- `Basics`: Option, and associativity of concatenation.
- `CStrings`: the C and C++ string operations the code relies on. These are
  `std::string::find`, `substr`, `erase`, `atoi`, and `sprintf("%0Nd")`. It
  also holds the field readers `getNextStr` and `getNextVal`.
- `Lines`: the specification of the line assembler.
- `Classifier`: the pattern table and the first-match walk over it.
- `Identity`: `getTSI` as written, `getTSI` as intended, and the TSI slicing.
- `Parsers`: one parser per answer line, each with a round-trip lemma.
- `Outbox`: the SDS queue. It is a `std::map<int, Sds>`, modelled as a list
  of entries kept in key order. The module holds the specification of the
  `checkSds` scan and the scan and erase loops as methods.
- `Station`: every member function of `TetraLogic` as a step function. Each
  one maps the member state, plus the line, the time or the event, to the
  new member state.
- `TetraLogic`: the class `TetraLogic` with the member state as fields. Each
  member function is a method that updates the fields in place. Each method
  is proved to leave the fields exactly as the matching `Station` step
  computes them, so the properties proved of `Station` hold of the class.
  The loop of `onCharactersReceived` is kept as a `while` loop over the
  receive buffer.

The current time is a parameter. The squelch of the modem and the
transmitter state are state (`Radio.sqlOpen` and `Radio.transmitting`), set by
the SquelchOpen and TransmitterStateChange steps and read by checkSds. What goes to the PEI and what goes to the event handler are
recorded as two output sequences. An uncaught `std::out_of_range` sets an
`aborted` flag, after which the model promises nothing. It is thrown by
`cmd.at(-1)` in `sendPei` and by `substr` past the end in `handleCallBegin`
and `handleCnumf`.

Where the code differs from what its comments and ETSI EN 300 392-5
describe, the model follows the code:

- The age test of `checkSds` is `difftime(tos, now) > 3600`, which is
  `tos - now`, not `now - tos`. So an entry counts as old only when its stamp
  lies more than an hour in the future. `Outbox.CheckNeverErasesPastStamps`
  proves the consequence: with a clock that does not run backwards, no entry
  is ever erased.
- A failed `+CMGS` clears the stamp of `pending_sds`, which is a copy. The
  queued entry keeps its stamp and is not retried.
- `last_sdsinstance` is the instance of the previous CMGS answer, not that of
  the last SDS sent.
- An answer that matches no pattern gets the current `peistate`, not
  `INVALID`.

## Model

| member | source | states |
|---|---|---|
| CStrings.Find | src/svxlink/svxlink/TetraLogic.cpp:766 | the index `find("\r\n")` returns is an occurrence with none before it; None exactly when there is none |
| CStrings.FindInPrefix | src/svxlink/svxlink/TetraLogic.cpp:752-773 | appending received characters does not move a "\r\n" already in the buffer |
| CStrings.FormatIntRoundTrip | src/svxlink/svxlink/TetraLogic.cpp:1382-1403 | `atoi` reads back any integer `sprintf("%0Nd")` wrote, whatever the width |
| CStrings.PadRoundTrip | src/svxlink/svxlink/TetraLogic.cpp:1403 | zero-padding the value of a digit string to its own width gives the string back, leading zeros included |
| CStrings.NextStrSplit | src/svxlink/svxlink/TetraLogic.cpp:933-954 | the field reader returns a comma-free field and consumes it with its comma |
| CStrings.NextStrLast | src/svxlink/svxlink/TetraLogic.cpp:954 | a last field without a comma is read whole |
| Lines.CString | src/svxlink/svxlink/TetraLogic.cpp:748-752 | what `peistream += buf` appends: the characters before the first NUL |
| Lines.AssembleClean | src/svxlink/svxlink/TetraLogic.cpp:752-773 | after the cutting loop the buffer is a suffix of the input and holds no "\r\n"; every line handed on is non-empty and holds no "\r\n" |
| Lines.AssembleAppend | src/svxlink/svxlink/TetraLogic.cpp:752-773 | cutting after part of the text and again after the rest gives the same lines and tail as cutting once |
| Lines.ChunkingIrrelevant | src/svxlink/svxlink/TetraLogic.cpp:752-773 | the lines handed on do not depend on how the characters were split into chunks |
| Classifier.RulesInKeyOrder | src/svxlink/svxlink/TetraLogic.cpp:1732-1758 | the pattern table lists the keys in strictly ascending byte order, the order in which the `std::map` is walked |
| Classifier.HandleMessageFirst | src/svxlink/svxlink/TetraLogic.cpp:1760-1767 | the first pattern that matches, in key order, decides the kind |
| Classifier.HandleMessageUnmatched | src/svxlink/svxlink/TetraLogic.cpp:1769 | a line that matches no pattern gets the current PEI state |
| Classifier.HandleMessageCases | src/svxlink/svxlink/TetraLogic.cpp:1724-1770 | the kind is that of the first matching pattern or the PEI state |
| Classifier.StateSdsExactly | src/svxlink/svxlink/TetraLogic.cpp:1754-1758 | unless the PEI state already is STATE_SDS, a line is a state SDS exactly when it is four upper-case hex digits, the first 8 to F, and not "8204" |
| Classifier.TextSdsFirst | src/svxlink/svxlink/TetraLogic.cpp:1754 | a line starting with "8204" is a text SDS, although "8204" is also a state code |
| Classifier.AckSdsFirst | src/svxlink/svxlink/TetraLogic.cpp:1755 | a line starting with "821000" is an SDS acknowledgement |
| Classifier.OkFirst | src/svxlink/svxlink/TetraLogic.cpp:1732 | a line starting with "OK" is an OK answer |
| Classifier.ErrorFirst | src/svxlink/svxlink/TetraLogic.cpp:1733 | a line starting with "+CME ERROR" is an ERROR answer |
| Classifier.BareErrorKeepsState | src/svxlink/svxlink/TetraLogic.cpp:1733 | a bare "ERROR" matches no pattern and keeps the PEI state |
| Classifier.CmgsFirst | src/svxlink/svxlink/TetraLogic.cpp:1745 | a line starting with "+CMGS:" is a CMGS answer |
| Classifier.CmgsExactly | src/svxlink/svxlink/TetraLogic.cpp:1745 | unless the PEI state already is CMGS, only a line starting with "+CMGS:" is classified CMGS |
| Identity.MccWidth | src/svxlink/svxlink/TetraLogic.cpp:1388-1396 | the MCC takes 4 characters when the TSI starts with '0' and 3 otherwise |
| Identity.GetTsiShortIssi | src/svxlink/svxlink/TetraLogic.cpp:1380-1385 | an ISSI shorter than 9 digits becomes the own MCC and MNC followed by the ISSI zero-padded to 8 digits, whose value is the ISSI's |
| Identity.GetTsiFits | src/svxlink/svxlink/TetraLogic.cpp:1375-1403 | every ISSI of 9 to 17 characters that FitsBuffer admits gives a result of at most 17 characters, so `char is[18]` holds it with its NUL |
| Identity.FormatAtoiWidth | src/svxlink/svxlink/TetraLogic.cpp:1403 | `%0Nd` of `atoi(s)` takes the width or no more characters than `s`, and fewer than `s` when `s` starts with a zero |
| Identity.GetTsiKeepsTsi | src/svxlink/svxlink/TetraLogic.cpp:1386-1404 | a 17-digit TSI whose MNC does not start with '0' passes getTSI unchanged |
| Identity.GetTsiLosesMncZero | src/svxlink/svxlink/TetraLogic.cpp:1386-1404 | a 17-digit TSI whose MNC starts with '0' comes back shorter |
| Identity.GetTsiDropsMncDigit | src/svxlink/svxlink/TetraLogic.cpp:1386-1404 | when only the first MNC digit is '0', getTSI returns the TSI without that digit |
| Identity.GetTsiDropsMncZero | src/svxlink/svxlink/TetraLogic.cpp:1386-1404 | "09010163830023404" comes back as "0901163830023404" |
| Identity.GetTsiIntendedKeepsTsi | src/svxlink/svxlink/TetraLogic.cpp:1372-1407 | with the ISSI as the last 8 characters, every 17-digit TSI with a 4-digit MCC is unchanged |
| Identity.GetTsiIntendedWidensMcc | src/svxlink/svxlink/TetraLogic.cpp:1393-1403 | a 16-digit TSI with a 3-digit MCC gains the leading zero of the 4-digit MCC |
| Identity.SplitJoinTsi | src/svxlink/svxlink/TetraLogic.cpp:938-953 | the slices at offsets 0, 4 and 9 read back the MCC, MNC and ISSI the 17-digit spelling wrote |
| Identity.SplitTsi | src/svxlink/svxlink/TetraLogic.cpp:938-941 | the slices fail (`substr` throws `std::out_of_range`) exactly when the TSI is shorter than 9 characters |
| Identity.CnumfOwnIdentity | src/svxlink/svxlink/TetraLogic.cpp:1580-1613 | a +CNUMF answer with the configured MCC, MNC and ISSI passes the identity check |
| Identity.CnumfOtherType | src/svxlink/svxlink/TetraLogic.cpp:1590-1593 | a number type other than 6 is not checked |
| Parsers.ReadJoinAll | src/svxlink/svxlink/TetraLogic.cpp:933-954 | reading as many fields as a comma-separated line holds gives them all |
| Parsers.CticnRoundTrip | src/svxlink/svxlink/TetraLogic.cpp:912-954 | a +CTICN line as the radio writes it decodes to every field of the call, both TSIs included, and names the originator by its TSI |
| Parsers.CmgsRoundTrip | src/svxlink/svxlink/TetraLogic.cpp:1284-1293 | a full +CMGS answer gives its instance, status and reference |
| Parsers.CmgsInstanceOnly | src/svxlink/svxlink/TetraLogic.cpp:1286-1293 | the short "+CMGS: <instance>" gives the instance as status and reference too |
| Parsers.ParseCtdgr | src/svxlink/svxlink/TetraLogic.cpp:1227-1235 | a report is read only when the rest holds exactly three commas |
| Parsers.CtdgrRoundTrip | src/svxlink/svxlink/TetraLogic.cpp:1227-1252 | a gateway report with a comma-free MNI is read back |
| Parsers.CtgsRoundTrip | src/svxlink/svxlink/TetraLogic.cpp:1212-1220 | the group list of a +CTGS answer is what follows the marker |
| Parsers.ClvlRoundTrip | src/svxlink/svxlink/TetraLogic.cpp:1258-1269 | the audio level of a +CLVL answer is read back |
| Parsers.AiModeOfCtom | src/svxlink/svxlink/TetraLogic.cpp:1773-1786 | the classified +CTOM answer gives its digit as the air interface mode |
| Parsers.CallReleaseRoundTrip | src/svxlink/svxlink/TetraLogic.cpp:1455-1466 | the disconnect cause is the second field of a +CTCR answer |
| Parsers.TextSdsRoundTrip | src/svxlink/svxlink/TetraLogic.cpp:1334-1338 | a text SDS gives back its non-empty text whatever its header |
| Parsers.SimpleTextSdsRoundTrip | src/svxlink/svxlink/TetraLogic.cpp:1349-1353 | a simple text SDS gives back its non-empty text whatever its header |
| Parsers.InjectionRoundTrip | src/svxlink/svxlink/TetraLogic.cpp:1622-1642 | "tsi,type,payload" and a newline are read back, commas in the payload included |
| Outbox.Insert | src/svxlink/svxlink/TetraLogic.cpp:1865 | map::insert keeps an existing key's entry; otherwise the entry takes its place in key order |
| Outbox.EraseKey | src/svxlink/svxlink/TetraLogic.cpp:1936 | erasing a key keeps every other entry, in order |
| Outbox.FirstTarget | src/svxlink/svxlink/TetraLogic.cpp:1883-1890 | the index of the first outgoing entry not sent yet, or the size when there is none |
| Outbox.Scan | src/svxlink/svxlink/TetraLogic.cpp:1881-1928 | the scan loop visits entries in key order, collects old keys, and gives the first unsent entry one more try and, when the radio is ready, the stamp `now` |
| Outbox.EraseAll | src/svxlink/svxlink/TetraLogic.cpp:1933-1937 | the erase loop removes exactly the collected keys |
| Outbox.TriedEntries | src/svxlink/svxlink/TetraLogic.cpp:1888-1916 | the first unsent entry gains exactly one try and is stamped exactly when sent; every other entry is unchanged |
| Outbox.CheckTarget | src/svxlink/svxlink/TetraLogic.cpp:1888-1916 | that entry is never erased, and it is what is sent when the radio is ready |
| Outbox.CheckChangesOnlyTarget | src/svxlink/svxlink/TetraLogic.cpp:1881-1937 | every entry after the scan is the tried entry or an old one |
| Outbox.CheckErasesExactly | src/svxlink/svxlink/TetraLogic.cpp:1884-1937 | an entry leaves the queue exactly when it is old and met before the first unsent entry |
| Outbox.CheckNeverErasesPastStamps | src/svxlink/svxlink/TetraLogic.cpp:1886 | an entry stamped at or before `now + 3600` is never old, so with a clock that does not run backwards nothing is erased |
| Outbox.CheckOrdered | src/svxlink/svxlink/TetraLogic.cpp:1881-1937 | the scan keeps the queue in key order |
| Outbox.CheckSendsOnlyWhenReady | src/svxlink/svxlink/TetraLogic.cpp:1905-1920 | a send needs an unsent entry and a ready radio, and then the result is true |
| Outbox.CheckKeepsLater | src/svxlink/svxlink/TetraLogic.cpp:1883-1937 | an entry behind the first unsent one comes through the try and the erase loop unchanged |
| Outbox.CheckKeepsSent | src/svxlink/svxlink/TetraLogic.cpp:1883-1937 | with every entry sent once, the scan changes no entry and erases only old ones |
| Outbox.CheckResult | src/svxlink/svxlink/TetraLogic.cpp:1878-1939 | the scan returns true exactly when an entry was passed before the first unsent one, or when that one exists and the radio is ready |
| Outbox.AppendedResult | src/svxlink/svxlink/TetraLogic.cpp:1863-1866 | once an unsent SDS is appended, the scan returns true exactly when an older entry was passed, the radio is ready, or the queue was empty and the new SDS is incoming |
| Outbox.CheckKeepsDense | src/svxlink/svxlink/TetraLogic.cpp:1884-1937 | with keys 1 to n and no old entry, nothing is erased, the keys stay 1 to n, and no entry becomes old |
| Outbox.SentIsNoTarget | src/svxlink/svxlink/TetraLogic.cpp:1888 | a stamped entry is no longer waiting to be sent |
| Outbox.EnqueueDense | src/svxlink/svxlink/TetraLogic.cpp:1861-1868 | while the keys are 1 to size, the key size + 1 is new, so the SDS is appended and the keys stay dense |
| Outbox.EnqueueCollision | src/svxlink/svxlink/TetraLogic.cpp:1863-1865 | once an erase leaves a gap, key size + 1 can be taken and the new SDS is not stored |
| Station.Initial | src/svxlink/svxlink/TetraLogic.cpp:186-204 | after construction the queue is in key order, sending is allowed, no SDS is new and the QSO members hold no duplicates |
| Station.Terminated | src/svxlink/svxlink/TetraLogic.cpp:1500-1504 | the command is written as it is when it ends with Ctrl-Z and with "\r" appended otherwise |
| Station.SendPei | src/svxlink/svxlink/TetraLogic.cpp:1498-1515 | exactly the terminated command is written and the command timer is armed; an empty command throws |
| Station.InitPei | src/svxlink/svxlink/TetraLogic.cpp:696-721 | at most one command goes out: the head of the list, which is removed; with the list empty during INIT, "AT+CNUMF?\r", the init-finished event and INIT_COMPLETE; otherwise nothing |
| Station.InitPeiInOrder | src/svxlink/svxlink/TetraLogic.cpp:706-720 | as many initPei calls as commands send the commands in list order and empty the list |
| Station.CheckSds | src/svxlink/svxlink/TetraLogic.cpp:1871-1940 | while a CMGS answer is awaited nothing changes and the result is true; a send writes exactly the encoded pending SDS, clears `cmgs_received` and returns true; with no send nothing is written; CheckSdsResult gives the result in every case |
| Station.CheckSdsSendsFirstTarget | src/svxlink/svxlink/TetraLogic.cpp:1883-1920 | with sending allowed and the radio ready, the first unsent entry is encoded and sent |
| Station.CheckSdsHoldsWhenBusy | src/svxlink/svxlink/TetraLogic.cpp:1905-1920 | with the radio not ready nothing is written and sending stays allowed |
| Station.QueueSds | src/svxlink/svxlink/TetraLogic.cpp:1861-1868 | the queue stays in key order, a pending CMGS answer stays pending, and the returned size is that of the new queue |
| Station.QueueSdsWhileWaiting | src/svxlink/svxlink/TetraLogic.cpp:1861-1868 | while a CMGS answer is awaited the SDS is appended under key size + 1 with no stamp, nothing is written, and the size is returned |
| Station.QueueSdsEnqueues | src/svxlink/svxlink/TetraLogic.cpp:1861-1940 | the SDS is queued unsent under size + 1 while a CMGS answer is awaited; otherwise nothing is written while the radio is busy, it stays queued behind an older unsent entry, and with none it goes out at once, stamped `now` with one more try, as the pending SDS and the one command written; with the radio busy the new outgoing SDS is stored with one try and no stamp, an incoming one is stored as it is, and `new_sds` is set exactly when checkSds returns true |
| Station.CheckSdsResult | src/svxlink/svxlink/TetraLogic.cpp:1871-1940 | the result is true exactly when no CMGS answer is awaited, an entry was passed before the first unsent one, or that one exists and the radio is ready |
| Station.CheckSdsQuiet | src/svxlink/svxlink/TetraLogic.cpp:1905-1920 | with the radio busy or nothing unsent, only the scan's tries and erasures change the state |
| Station.QueueSdsNewSds | src/svxlink/svxlink/TetraLogic.cpp:1866 | `new_sds` becomes exactly the result of the checkSds run on the queue with the SDS appended |
| Station.QueueSdsKeepsIncoming | src/svxlink/svxlink/TetraLogic.cpp:1863-1888 | an incoming SDS with nothing unsent ahead of it is appended as it is, and nothing is written |
| Station.QueueSdsTriesNew | src/svxlink/svxlink/TetraLogic.cpp:1863-1920 | with the radio busy and nothing unsent ahead, the new outgoing SDS is stored under size + 1 with one try and no stamp |
| Station.CheckSdsKeepsDense | src/svxlink/svxlink/TetraLogic.cpp:1884-1937 | checkSds keeps the keys 1 to n and no entry old |
| Station.QueueSdsKeepsDense | src/svxlink/svxlink/TetraLogic.cpp:1861-1868 | queueSds keeps the keys 1 to n + 1 and no entry old, so the next key is always new |
| Station.HandleCmgsKeepsDense | src/svxlink/svxlink/TetraLogic.cpp:1284-1331 | a CMGS answer keeps the keys dense |
| Station.HandleCallReleasedKeepsDense | src/svxlink/svxlink/TetraLogic.cpp:1451-1495 | a call release keeps the keys dense |
| Station.HandleCallBeginKeepsDense | src/svxlink/svxlink/TetraLogic.cpp:912-1017 | a call begin keeps the keys dense |
| Station.NewCallerKeepsDense | src/svxlink/svxlink/TetraLogic.cpp:960-985 | queueing the info SDS for a new caller keeps the keys dense |
| Station.StatusAnswerKeepsDense | src/svxlink/svxlink/TetraLogic.cpp:783-874 | OK, ERROR and the CMGS answers keep the keys dense |
| Station.CallAnswerKeepsDense | src/svxlink/svxlink/TetraLogic.cpp:783-874 | the call and SDS answers keep the keys dense |
| Station.PeiAnswerKeepsDense | src/svxlink/svxlink/TetraLogic.cpp:778-880 | every answer of the radio keeps the keys dense |
| Station.AnswerAllKeepsDense | src/svxlink/svxlink/TetraLogic.cpp:766-773 | every run of answer lines keeps the keys dense at a fixed time |
| Station.ReceiveKeepsDense | src/svxlink/svxlink/TetraLogic.cpp:746-775 | a received chunk keeps the keys dense |
| Station.CheckSdsKeepsLater | src/svxlink/svxlink/TetraLogic.cpp:1883-1937 | an entry behind the first unsent one comes through checkSds unchanged |
| Station.HandleCmgs | src/svxlink/svxlink/TetraLogic.cpp:1284-1331 | sending is allowed again afterwards unless the SDS check sends the next one, and `last_sdsinstance` becomes the answer's instance |
| Station.HandleCmgsFailureNotRetried | src/svxlink/svxlink/TetraLogic.cpp:1295-1305 | a failure for the last instance clears only the pending copy's stamp; with every entry sent once nothing is written, every entry keeps its stamp and tries, and only old ones may go |
| Station.HandleCmgsOtherKeepsPending | src/svxlink/svxlink/TetraLogic.cpp:1295-1316 | any other CMGS answer leaves the pending SDS as it was; with every entry sent once nothing is written and the entries keep their stamps |
| Station.CfmSdsQueuesOk | src/svxlink/svxlink/TetraLogic.cpp:1545-1553 | "OK" for the sender is queued as QueueSdsEnqueues describes, whether a CMGS answer is awaited or not |
| Station.CfmTxtSdsQueuesAck | src/svxlink/svxlink/TetraLogic.cpp:1557-1577 | a text SDS of 8 characters or more is acknowledged with "821000" and its reference as an ACK_SDS, queued as QueueSdsEnqueues describes; a shorter one changes nothing |
| Station.SdsPtyQueues | src/svxlink/svxlink/TetraLogic.cpp:1622-1642 | an injected "tsi,type,payload" line queues the payload for the TSI, as text for type "T" and raw otherwise, as QueueSdsEnqueues describes |
| Station.SendWelcomeSdsQueues | src/svxlink/svxlink/TetraLogic.cpp:1943-1963 | the SDS configured for the reason is queued as QueueSdsEnqueues describes; a reason without one changes nothing |
| Station.HandleCallBegin | src/svxlink/svxlink/TetraLogic.cpp:912-1017 | a line shorter than 65 changes nothing; the queue stays ordered and the QSO members stay free of duplicates |
| Station.CallBeginNewUser | src/svxlink/svxlink/TetraLogic.cpp:960-985 | an unknown originator is stored as a default user and the call is recorded; the QSO is untouched, and nothing is written while a CMGS answer is awaited or the transmitter is off |
| Station.CallBeginQueuesInfo | src/svxlink/svxlink/TetraLogic.cpp:968-982 | the unknown originator gets the info SDS queued as QueueSdsEnqueues describes, in the state with the squelch open; with the transmitter off nothing is written |
| Station.CallBeginKnownUser | src/svxlink/svxlink/TetraLogic.cpp:986-1005 | a known originator is stamped, opens the QSO, and is among its members once |
| Station.JoinQso | src/svxlink/svxlink/TetraLogic.cpp:993-997 | the call sign is among the members afterwards, appended only when absent, so no duplicates arise |
| Station.KnownCaller | src/svxlink/svxlink/TetraLogic.cpp:986-1016 | the call is recorded, the user stamped, the QSO opened and the begin event emitted; the SDS state is untouched |
| Station.NewCaller | src/svxlink/svxlink/TetraLogic.cpp:960-985 | the call is recorded and a default user stored under the TSI |
| Station.HandleCallReleased | src/svxlink/svxlink/TetraLogic.cpp:1451-1495 | the QSO stops at `now` with no members, the talkgroup is down, transmission is over, and known users are kept; with the squelch open the call ends out of range and the squelch closes unless the transmitter is on, otherwise the call ends with its cause; then checkSds runs on that state |
| Station.ReleaseCall | src/svxlink/svxlink/TetraLogic.cpp:1451-1492 | before checkSds nothing is written, the squelch is open afterwards only if it was open with the transmitter on, and exactly one event goes out: out of range with the squelch open, call end with the cause otherwise |
| Station.CallReleasedSendsFirst | src/svxlink/svxlink/TetraLogic.cpp:1492-1918 | with sending allowed, the PEI state OK, the squelch not held open by the transmitter, and an unsent entry queued, the release sends that entry: it is stamped `now` with one more try, becomes the pending SDS and is the one command written |
| Station.ReleaseThenBegin | src/svxlink/svxlink/TetraLogic.cpp:912-1017 | after a release, a call begin of a known user starts a QSO of that user alone |
| Station.HandleCtdgr | src/svxlink/svxlink/TetraLogic.cpp:1227-1255 | a report without exactly three commas changes nothing; otherwise it is announced and its gateway stored |
| Station.StoreGateway | src/svxlink/svxlink/TetraLogic.cpp:1240-1252 | emplace keeps a known gateway and adds an unknown one |
| Station.HandleOk | src/svxlink/svxlink/TetraLogic.cpp:786-793 | the PEI state becomes OK; checkSds runs exactly when an SDS is new and no transmission is under way, and otherwise nothing else changes; at most the pending SDS is written |
| Station.HandleAnswer | src/svxlink/svxlink/TetraLogic.cpp:783-874 | only a CMGS answer can allow sending again; only +CNUMF changes the request or the command list |
| Station.StatusAnswer | src/svxlink/svxlink/TetraLogic.cpp:783-874 | the OK, ERROR, +CNUMF, +CMGS, +CTOM and +CLVL answers keep the queue ordered and the QSO free of duplicates; only +CMGS allows sending again, only +CNUMF touches the request or command list |
| Station.CallAnswer | src/svxlink/svxlink/TetraLogic.cpp:783-874 | the call-control answers keep the queue ordered and the QSO free of duplicates, never allow sending again and leave the request and command list alone |
| Station.HandlePeiAnswer | src/svxlink/svxlink/TetraLogic.cpp:778-880 | the queue stays ordered, QSO members stay free of duplicates, and only a CMGS answer allows sending again |
| Station.AnswerState | src/svxlink/svxlink/TetraLogic.cpp:783-874 | the PEI state never becomes CMGS |
| Station.OkAnswerDrivesInit | src/svxlink/svxlink/TetraLogic.cpp:786-793 | an OK answer during INIT records OK, lets checkSds send what is due, then writes the next init command and drops it from the list, or with none left "AT+CNUMF?" and the init-finished event |
| Station.ErrorAnswerDrivesInit | src/svxlink/svxlink/TetraLogic.cpp:875-878 | an ERROR answer during INIT records ERROR, sends no SDS, and writes the next init command, or with none left "AT+CNUMF?" and the init-finished event |
| Station.CmeErrorDrivesInit | src/svxlink/svxlink/TetraLogic.cpp:875-878 | a line starting with "+CME ERROR" during INIT drives the next init command |
| Station.OkDrivesInit | src/svxlink/svxlink/TetraLogic.cpp:875-878 | a line starting with "OK" during INIT writes the next init command after whatever checkSds wrote |
| Station.UnmatchedLineRepeatsOk | src/svxlink/svxlink/TetraLogic.cpp:1769 | a line matching no pattern while the state is OK is handled exactly as "OK" |
| Station.PeiAnswerKeepsWaiting | src/svxlink/svxlink/TetraLogic.cpp:1311-1316 | while a CMGS answer is awaited, a line not starting with "+CMGS:" leaves sending blocked |
| Station.AnswerAllKeepsWaiting | src/svxlink/svxlink/TetraLogic.cpp:1311-1316 | the same over any run of such lines, so at most one SDS goes out between CMGS answers |
| Station.AnswerAllNoDuplicates | src/svxlink/svxlink/TetraLogic.cpp:993-997 | the QSO members never hold a call sign twice, over any run of lines |
| Station.CnumfCompletesInit | src/svxlink/svxlink/TetraLogic.cpp:1580-1613 | the initialisation is complete whatever identity is reported; only a type-6 TSI shorter than 9 throws |
| Station.Drain | src/svxlink/svxlink/TetraLogic.cpp:766-773 | the queue stays in key order |
| Station.DrainAnswersLines | src/svxlink/svxlink/TetraLogic.cpp:752-773 | the loop hands to handlePeiAnswer exactly the lines the assembler cuts, in order, and keeps its tail |
| Station.ReceiveLeavesNoLine | src/svxlink/svxlink/TetraLogic.cpp:746-775 | after a chunk is received the buffer holds no complete line |
| Station.OnComTimeout | src/svxlink/svxlink/TetraLogic.cpp:1518-1524 | the PEI state becomes TIMEOUT and the event is emitted; nothing is written |
| Station.OnPeiActivityTimeout | src/svxlink/svxlink/TetraLogic.cpp:1527-1532 | "AT" is sent and the request becomes CHECK_AT; no event is emitted and the PEI state, the queue, the calls and the radio are unchanged |
| Station.OnPeiBreakCommandTimeout | src/svxlink/svxlink/TetraLogic.cpp:1535-1539 | the request becomes INIT and the first init command is sent, or the identity query when the list is empty |
| Station.InitializeSendsBreakThenFirst | src/svxlink/svxlink/TetraLogic.cpp:563-575 | the line break goes out first, then in AT_CMD_WAIT the first init command |
| Station.IntString | src/svxlink/svxlink/TetraLogic.cpp:889 | the decimal spelling reads back as the number |
| Station.InitGroupCall | src/svxlink/svxlink/TetraLogic.cpp:883-896 | circuit setup and dial commands go out, `inTransmission` is set and the event emitted |
| Station.TransmitterStateChange | src/svxlink/svxlink/TetraLogic.cpp:610-639 | the first transmission sets up the group call, later ones demand the channel, the end ceases it; the talkgroup stays up |
| TetraLogic.TetraLogic.constructor | src/svxlink/svxlink/TetraLogic.cpp:186-204 | the fields start as Station.Initial and the buffer empty |
| TetraLogic.TetraLogic.SendPei | src/svxlink/svxlink/TetraLogic.cpp:1498-1515 | the fields become Station.SendPei of the old fields; the receive buffer is untouched |
| TetraLogic.TetraLogic.InitPei | src/svxlink/svxlink/TetraLogic.cpp:696-721 | the fields become Station.InitPei of the old fields; the receive buffer is untouched |
| TetraLogic.TetraLogic.CheckSds | src/svxlink/svxlink/TetraLogic.cpp:1871-1940 | the fields and the result are Station.CheckSds of the old fields, by the scan and erase loops; the receive buffer is untouched |
| TetraLogic.TetraLogic.QueueSds | src/svxlink/svxlink/TetraLogic.cpp:1861-1868 | the fields and the returned size are Station.QueueSds of the old fields; the receive buffer is untouched |
| TetraLogic.TetraLogic.HandleCmgs | src/svxlink/svxlink/TetraLogic.cpp:1284-1331 | the fields become Station.HandleCmgs of the old fields; the receive buffer is untouched |
| TetraLogic.TetraLogic.HandleCallBegin | src/svxlink/svxlink/TetraLogic.cpp:912-1017 | the fields become Station.HandleCallBegin of the old fields; the receive buffer is untouched |
| TetraLogic.TetraLogic.HandleCallReleased | src/svxlink/svxlink/TetraLogic.cpp:1451-1495 | the fields become Station.HandleCallReleased of the old fields; the receive buffer is untouched |
| TetraLogic.TetraLogic.HandleTransmissionEnd | src/svxlink/svxlink/TetraLogic.cpp:1440-1446 | the squelch closes and the group call end is announced; the receive buffer is untouched |
| TetraLogic.TetraLogic.HandleTxGrant | src/svxlink/svxlink/TetraLogic.cpp:1363-1369 | the squelch opens and the grant is announced; the receive buffer is untouched |
| TetraLogic.TetraLogic.HandleCtdgr | src/svxlink/svxlink/TetraLogic.cpp:1227-1255 | the fields become Station.HandleCtdgr of the old fields; the receive buffer is untouched |
| TetraLogic.TetraLogic.HandleClvl | src/svxlink/svxlink/TetraLogic.cpp:1258-1269 | the audio level is announced; the receive buffer is untouched |
| TetraLogic.TetraLogic.GetAiMode | src/svxlink/svxlink/TetraLogic.cpp:1773-1786 | the mode is announced when the line is longer than 6; the receive buffer is untouched |
| TetraLogic.TetraLogic.HandleCnumf | src/svxlink/svxlink/TetraLogic.cpp:1580-1613 | the fields become Station.HandleCnumf of the old fields; the receive buffer is untouched |
| TetraLogic.TetraLogic.HandlePeiAnswer | src/svxlink/svxlink/TetraLogic.cpp:778-880 | the fields become Station.HandlePeiAnswer of the old fields; the receive buffer is untouched |
| TetraLogic.TetraLogic.OnCharactersReceived | src/svxlink/svxlink/TetraLogic.cpp:746-775 | the fields and the buffer become Station.Receive of the old ones, by the cutting loop |
| TetraLogic.TetraLogic.OnComTimeout | src/svxlink/svxlink/TetraLogic.cpp:1518-1524 | the fields become Station.OnComTimeout of the old fields; the receive buffer is untouched |
| TetraLogic.TetraLogic.OnPeiActivityTimeout | src/svxlink/svxlink/TetraLogic.cpp:1527-1532 | the fields become Station.OnPeiActivityTimeout of the old fields; the receive buffer is untouched |
| TetraLogic.TetraLogic.OnPeiBreakCommandTimeout | src/svxlink/svxlink/TetraLogic.cpp:1535-1539 | the fields become Station.OnPeiBreakCommandTimeout of the old fields; the receive buffer is untouched |
| TetraLogic.TetraLogic.Initialize | src/svxlink/svxlink/TetraLogic.cpp:563-575 | the fields become Station.Initialize of the old fields; the receive buffer is untouched |
| TetraLogic.TetraLogic.InitGroupCall | src/svxlink/svxlink/TetraLogic.cpp:883-896 | the fields become Station.InitGroupCall of the old fields; the receive buffer is untouched |
| TetraLogic.TetraLogic.TransmitterStateChange | src/svxlink/svxlink/TetraLogic.cpp:610-639 | the fields become Station.TransmitterStateChange of the old fields; the receive buffer is untouched |
| TetraLogic.TetraLogic.CfmSdsReceived | src/svxlink/svxlink/TetraLogic.cpp:1545-1553 | the fields become Station.CfmSdsReceived of the old fields; the receive buffer is untouched |
| TetraLogic.TetraLogic.CfmTxtSdsReceived | src/svxlink/svxlink/TetraLogic.cpp:1557-1577 | the fields become Station.CfmTxtSdsReceived of the old fields; the receive buffer is untouched |
| TetraLogic.TetraLogic.SdsPtyReceived | src/svxlink/svxlink/TetraLogic.cpp:1622-1642 | the fields become Station.SdsPtyReceived of the old fields; the receive buffer is untouched |
| TetraLogic.TetraLogic.SendWelcomeSds | src/svxlink/svxlink/TetraLogic.cpp:1943-1963 | the fields become Station.SendWelcomeSds of the old fields; the receive buffer is untouched |

## Left out

- Serial and PTY I/O, real timers and the debug output are left out. A write to the PEI is recorded in the output, and a timer is an armed flag plus an explicit timeout step.
- processEvent, publishInfo, the JSON events, APRS, DAPNET and DTMF injection are external sinks. Events are recorded as values of a datatype, without the strings the lookup tables build.
- handleSds, handleSdsMsg, handleStateSds, sendInfoSds and sendUserInfo are not part of this model. They decode and route received SDS through TetraLib.h helpers and floating-point position code. The classifier tags these answers, but the model does nothing further with them.
- TetraLib.h is not part of this model. getNextStr and getNextVal are modelled as "the field up to the first comma, consumed with the comma; without a comma the whole string, left in place". createSDS, createCfmSDS and getISSI are functions supplied with the configuration. handleTextSds and handleSimpleTextSds are modelled up to the call of decodeSDS: the model gives the text that would be decoded.
- Configuration loading in initialize, the user sections, and MCC/MNC padding are left out. The configuration is a value, and Station.Initialize models only the tail of initialize after the port is open.
- The resets of the activity timer in onCharactersReceived (TetraLogic.cpp:749) and onPeiActivityTimeout (TetraLogic.cpp:1531) are not modelled. The activity timer has no field in the model, because its timeout is an explicit step that may be taken at any time.
- The floating-point work (distance, bearing, NMEA, LIP) is left out.
- Identity.GetTsi: requires FitsBuffer. Longer inputs, and 17-character ones with a 3-digit MCC whose "MNC" slice does not start with '0', overflow `char is[18]`, which is undefined behaviour.
- Sds id: the message reference cfmTxtSdsReceived stores in `t_sds.id` (hex2int) is not modelled; only commented-out code reads it.
- Station.UnsetType and Station.BlankSds: the Sds struct and its field defaults live in TetraLogic.h, which is not part of this model. The fields that cfmSdsReceived and sendWelcomeSds leave unset (type, nroftries, tos) are taken as 0, and the unset type is taken to differ from ACK_SDS. That assumption decides whether checkSds encodes such an SDS with createCfmSDS or createSDS (TetraLogic.cpp:1895-1903).
- CStrings.Atoi: integer overflow is not modelled. Values are unbounded.
- Station.SdsPtyReceived: requires at least one byte. With none, `count - 1` wraps around.
- Station.QueueSds, Station.HandleCmgs, Station.HandleAnswer, Station.HandleCallBegin and Station.CheckSds: once a handler has thrown (`aborted`), nothing is promised about the rest of the state.
- squelchOpen is modelled only as the modem squelch flag it sets. The Rx and Tx objects are left out.

## Findings

| source | as written | input that shows it | evidently intended | confidence | as-written member | corrected member |
|---|---|---|---|---|---|---|
| src/svxlink/svxlink/TetraLogic.cpp:1386-1404 | for a TSI of 9 or more characters, getTSI cuts the ISSI at `len - 8` of the original length from the string already shortened by the MCC. The "MNC" then takes 9 characters, and `%05d` of it drops a leading zero of the MNC | "09010163830023404" (MCC 0901, MNC 01638, ISSI 30023404) comes back as "0901163830023404" | the ISSI is the last 8 characters and the MNC lies between MCC and ISSI, so a 17-digit TSI is returned unchanged | not executed | Identity.GetTsiDropsMncZero | Identity.GetTsiIntendedKeepsTsi |
