/** The four-message handshake as pure functions of what each side reads: `Respond` follows
    `startReceiveTicket` (the accepting side) and `Initiate` follows `requestMovie` (the connecting
    side). Each run records the lines it wrote, its outcome, and its ledger afterwards; any failed
    check ends the run where it stands. The methods `StartReceiveTicket` and `RequestMovie` of
    `Srtsp.SRTSP` run the same steps on the object's ledger and are proved equal to these functions,
    so the lemmas here hold of them too. */
module Handshake {
  import opened Wrappers
  import opened JavaInt
  import opened Entities
  import opened Providers
  import opened Frame
  import opened Messages
  import opened Nonces

  /** `Utils.toByteArray("initmark-frame")`: the marker message 4 carries. */
  function InitMark(p: Providers): Bytes {
    p.stringBytes("initmark-frame")
  }

  datatype ResponderRun = ResponderRun(sent: seq<string>, ticket: Option<TicketCredentials>, ledger: set<Int32>)

  datatype InitiatorRun = InitiatorRun(sent: seq<string>, completed: bool, ledger: set<Int32>)

  /** The nonce the responder draws for `n2`, once the ticket's `n4` is in its ledger. */
  function ResponderNonce(ledger: set<Int32>, n4: Int32, draws: seq<Int32>): Int32
    requires FreshSupply(draws, ledger)
  {
    SupplyAfterAdmit(draws, ledger, n4);
    draws[FirstFresh(draws, ledger + {n4}, 0)]
  }

  /** The nonce the initiator draws for `n1`. */
  function InitiatorFirstNonce(ledger: set<Int32>, draws: seq<Int32>): Int32
    requires FreshSupply(draws, ledger)
  {
    SupplyAfterFirst(draws, ledger);
    draws[FirstFresh(draws, ledger, 0)]
  }

  /** The nonce the initiator draws for `n3`, after admitting `n1 + 1`; drawing resumes after `n1`. */
  function InitiatorSecondNonce(ledger: set<Int32>, draws: seq<Int32>): Int32
    requires FreshSupply(draws, ledger)
  {
    SupplyAfterFirst(draws, ledger);
    var k1 := FirstFresh(draws, ledger, 0);
    draws[FirstFresh(draws, ledger + {Succ(draws[k1])}, k1 + 1)]
  }

  /** `startReceiveTicket` from the first `readLine` on. */
  function Respond(p: Providers, issuerKey: Bytes, privateKey: Bytes, ledger: set<Int32>,
                   line1: string, line3: string, draws: seq<Int32>): ResponderRun
    requires FreshSupply(draws, ledger)
  {
    match DecodeMessage1(p, issuerKey, privateKey, line1)
    case None => ResponderRun([], None, ledger)
    case Some(req) =>
      var tc := req.ticketCredentials;
      match Admit(ledger, tc.n4)
      case None => ResponderRun([], None, ledger)
      case Some(ledger1) => RespondAdmitted(p, tc, req.n1, ledger1, line3, ResponderNonce(ledger, tc.n4, draws))
  }

  /** The rest of `startReceiveTicket` once the ticket `tc` is admitted (the ledger is now `ledger1`)
      and `n2` is drawn: write message 2, read message 3, admit its echo, write message 4. */
  function RespondAdmitted(p: Providers, tc: TicketCredentials, n1: Int32, ledger1: set<Int32>,
                           line3: string, n2: Int32): ResponderRun
  {
    match EncodeMessage2(p, tc.Keys(), Succ(n1), n2, true)
    case None => ResponderRun([], None, ledger1)
    case Some(m2) =>
      match DecodeMessage3(p, tc.Keys(), line3, n2)
      case None => ResponderRun([m2], None, ledger1)
      case Some(ack) =>
        if ack.n2Echo != Succ(n2) then ResponderRun([m2], None, ledger1)
        else
          match Admit(ledger1, ack.n2Echo)
          case None => ResponderRun([m2], None, ledger1)
          case Some(ledger2) =>
            match EncodeMessage4(p, tc.Keys(), InitMark(p), Succ(ack.n3))
            case None => ResponderRun([m2], None, ledger2)
            case Some(m4) => ResponderRun([m2, m4], Some(tc), ledger2)
  }

  /** `requestMovie` from the first `newNounce` on. */
  function Initiate(p: Providers, t: TicketCredentialsReturn, ledger: set<Int32>,
                    line2: string, line4: string, draws: seq<Int32>): InitiatorRun
    requires FreshSupply(draws, ledger)
  {
    var n1 := InitiatorFirstNonce(ledger, draws);
    match EncodeMessage1(p, t.streamTicket, t.streamSigBytes, n1)
    case None => InitiatorRun([], false, ledger)
    case Some(m1) =>
      match DecodeMessage2(p, t.Keys(), line2, n1)
      case None => InitiatorRun([m1], false, ledger)
      case Some(v) =>
        if v.n1Echo != Succ(n1) || !v.ticketValidityConfirmation then InitiatorRun([m1], false, ledger)
        else
          match Admit(ledger, v.n1Echo)
          case None => InitiatorRun([m1], false, ledger)
          case Some(ledger1) => InitiateConfirmed(p, t, m1, v.n2, ledger1, line4, InitiatorSecondNonce(ledger, draws))
  }

  /** The rest of `requestMovie` once message 2 passed and its echo is admitted (the ledger is now
      `ledger1`) and `n3` is drawn: write message 3 (after `m1`), read message 4, admit its echo. */
  function InitiateConfirmed(p: Providers, t: TicketCredentialsReturn, m1: string, n2: Int32,
                             ledger1: set<Int32>, line4: string, n3: Int32): InitiatorRun
  {
    match EncodeMessage3(p, t.Keys(), Succ(n2), n3)
    case None => InitiatorRun([m1], false, ledger1)
    case Some(m3) =>
      match DecodeMessage4(p, t.Keys(), line4, n3)
      case None => InitiatorRun([m1, m3], false, ledger1)
      case Some(sf) =>
        if sf.n3Echo != Succ(n3) then InitiatorRun([m1, m3], false, ledger1)
        else
          match Admit(ledger1, sf.n3Echo)
          case None => InitiatorRun([m1, m3], false, ledger1)
          case Some(ledger2) => InitiatorRun([m1, m3], true, ledger2)
  }

  // ---------------------------------------------------------------------------------------------
  // Responder

  /** Message 3 passed: message 2 fit in a frame, and message 3 decodes under the tag of `n2 + 1`
      and echoes `n2 + 1`. The responder then admits the echo. */
  ghost predicate AckPasses(p: Providers, tc: TicketCredentials, n1: Int32, line3: string, n2: Int32) {
    && EncodeMessage2(p, tc.Keys(), Succ(n1), n2, true).Some?
    && DecodeMessage3(p, tc.Keys(), line3, n2).Some?
    && DecodeMessage3(p, tc.Keys(), line3, n2).value.n2Echo == Succ(n2)
  }

  /** The checks the responder makes once the ticket is admitted and `n2` is drawn: message 3
      passed, and message 4 fits in a frame. */
  ghost predicate AdmittedChecksPass(p: Providers, tc: TicketCredentials, n1: Int32, line3: string, n2: Int32) {
    && AckPasses(p, tc, n1, line3, n2)
    && EncodeMessage4(p, tc.Keys(), InitMark(p), Succ(DecodeMessage3(p, tc.Keys(), line3, n2).value.n3)).Some?
  }

  /** The checks the responder makes, stated without its ledger bookkeeping: message 1 decodes
      (signature, unseal, read), the ticket's `n4` is new, and the checks after admission pass. */
  ghost predicate ResponderChecksPass(p: Providers, issuerKey: Bytes, privateKey: Bytes, ledger: set<Int32>,
                                     line1: string, line3: string, draws: seq<Int32>)
    requires FreshSupply(draws, ledger)
  {
    && DecodeMessage1(p, issuerKey, privateKey, line1).Some?
    && var req := DecodeMessage1(p, issuerKey, privateKey, line1).value;
    && req.ticketCredentials.n4 !in ledger
    && AdmittedChecksPass(p, req.ticketCredentials, req.n1, line3, ResponderNonce(ledger, req.ticketCredentials.n4, draws))
  }

  /** A message 1 that decodes to a ticket with a new `n4` takes the responder on to
      `RespondAdmitted`, from the ledger with `n4` admitted and with `n2` drawn so that `n2 + 1` is
      outside that ledger. */
  lemma RespondReachesAdmitted(p: Providers, issuerKey: Bytes, privateKey: Bytes, ledger: set<Int32>,
                               line1: string, line3: string, draws: seq<Int32>, req: RequestAndCredentials)
    requires FreshSupply(draws, ledger)
    requires DecodeMessage1(p, issuerKey, privateKey, line1) == Some(req)
    requires req.ticketCredentials.n4 !in ledger
    ensures Succ(ResponderNonce(ledger, req.ticketCredentials.n4, draws)) !in ledger + {req.ticketCredentials.n4}
    ensures Respond(p, issuerKey, privateKey, ledger, line1, line3, draws)
            == RespondAdmitted(p, req.ticketCredentials, req.n1, ledger + {req.ticketCredentials.n4}, line3,
                               ResponderNonce(ledger, req.ticketCredentials.n4, draws))
  {
    assert Admit(ledger, req.ticketCredentials.n4) == Some(ledger + {req.ticketCredentials.n4});
  }

  /** After admission, with `n2` drawn so that `n2 + 1` is outside the ledger: the responder returns
      the ticket exactly when the remaining checks pass, since admitting the echo cannot fail. It
      writes nothing when message 2 overflows, only message 2 when a later check fails, and both
      messages on success; its ledger gains `n2 + 1` exactly when message 3 passed. */
  lemma AdmittedOutcome(p: Providers, tc: TicketCredentials, n1: Int32, ledger1: set<Int32>, line3: string, n2: Int32)
    requires Succ(n2) !in ledger1
    ensures var run := RespondAdmitted(p, tc, n1, ledger1, line3, n2);
      var m2 := EncodeMessage2(p, tc.Keys(), Succ(n1), n2, true);
      && run.ledger == (if AckPasses(p, tc, n1, line3, n2) then ledger1 + {Succ(n2)} else ledger1)
      && (run.ticket.Some? <==> AdmittedChecksPass(p, tc, n1, line3, n2))
      && (run.ticket.Some? ==> run.ticket == Some(tc))
      && (m2.None? ==> run.sent == [])
      && (m2.Some? && !AdmittedChecksPass(p, tc, n1, line3, n2) ==> run.sent == [m2.value])
    ensures AdmittedChecksPass(p, tc, n1, line3, n2) ==>
      var ack := DecodeMessage3(p, tc.Keys(), line3, n2).value;
      RespondAdmitted(p, tc, n1, ledger1, line3, n2)
        == ResponderRun([EncodeMessage2(p, tc.Keys(), Succ(n1), n2, true).value,
                         EncodeMessage4(p, tc.Keys(), InitMark(p), Succ(ack.n3)).value],
                        Some(tc), ledger1 + {Succ(n2)})
  {
    assert Admit(ledger1, Succ(n2)) == Some(ledger1 + {Succ(n2)});
  }

  /** The responder returns a ticket exactly when its checks pass; admitting the echo `n2 + 1` can
      never be what fails, because `n2` was drawn with `n2 + 1` outside the ledger. Message 4 is
      written only when every check passed. It never forgets a nonce. */
  lemma ResponderOutcome(p: Providers, issuerKey: Bytes, privateKey: Bytes, ledger: set<Int32>,
                         line1: string, line3: string, draws: seq<Int32>)
    requires FreshSupply(draws, ledger)
    ensures var run := Respond(p, issuerKey, privateKey, ledger, line1, line3, draws);
      && ledger <= run.ledger
      && (run.ticket.Some? <==> ResponderChecksPass(p, issuerKey, privateKey, ledger, line1, line3, draws))
      && (|run.sent| == 2 ==> ResponderChecksPass(p, issuerKey, privateKey, ledger, line1, line3, draws))
  {
    var dec := DecodeMessage1(p, issuerKey, privateKey, line1);
    if dec.Some? && dec.value.ticketCredentials.n4 !in ledger {
      var tc := dec.value.ticketCredentials;
      RespondReachesAdmitted(p, issuerKey, privateKey, ledger, line1, line3, draws, dec.value);
      AdmittedOutcome(p, tc, dec.value.n1, ledger + {tc.n4}, line3, ResponderNonce(ledger, tc.n4, draws));
    } else {
      assert Respond(p, issuerKey, privateKey, ledger, line1, line3, draws) == ResponderRun([], None, ledger);
      assert !ResponderChecksPass(p, issuerKey, privateKey, ledger, line1, line3, draws);
    }
  }

  /** A responder whose checks pass wrote message 2 (echo `n1 + 1`, confirmation `true`) and
      message 4 (echo `n3 + 1`), returns the unsealed ticket, and its ledger grew by exactly `n4` and
      `n2 + 1`. */
  lemma ResponderSuccess(p: Providers, issuerKey: Bytes, privateKey: Bytes, ledger: set<Int32>,
                         line1: string, line3: string, draws: seq<Int32>)
    requires FreshSupply(draws, ledger)
    requires ResponderChecksPass(p, issuerKey, privateKey, ledger, line1, line3, draws)
    ensures var req := DecodeMessage1(p, issuerKey, privateKey, line1).value;
      var tc := req.ticketCredentials;
      var n2 := ResponderNonce(ledger, tc.n4, draws);
      var ack := DecodeMessage3(p, tc.Keys(), line3, n2).value;
      && Respond(p, issuerKey, privateKey, ledger, line1, line3, draws)
         == ResponderRun([EncodeMessage2(p, tc.Keys(), Succ(req.n1), n2, true).value,
                          EncodeMessage4(p, tc.Keys(), InitMark(p), Succ(ack.n3)).value],
                         Some(tc), ledger + {tc.n4, Succ(n2)})
      && |ledger + {tc.n4, Succ(n2)}| == |ledger| + 2
  {
    var req := DecodeMessage1(p, issuerKey, privateKey, line1).value;
    var tc := req.ticketCredentials;
    var n2 := ResponderNonce(ledger, tc.n4, draws);
    RespondReachesAdmitted(p, issuerKey, privateKey, ledger, line1, line3, draws, req);
    AdmittedOutcome(p, tc, req.n1, ledger + {tc.n4}, line3, n2);
    assert ledger + {tc.n4} + {Succ(n2)} == ledger + {tc.n4, Succ(n2)};
  }

  /** A message 1 whose signature does not verify aborts the responder before anything is
      unsealed, admitted or written. */
  lemma BadSignatureAborts(p: Providers, issuerKey: Bytes, privateKey: Bytes, ledger: set<Int32>,
                           line1: string, line3: string, draws: seq<Int32>, obj: RequestAndCredentialsSend)
    requires FreshSupply(draws, ledger)
    requires Frame.Decode(Message1, p.fromHex(line1)).Some?
    requires p.readRequest(Frame.Decode(Message1, p.fromHex(line1)).value.0) == Some(obj)
    requires !p.verify(issuerKey, obj.ticketCredentials, obj.signature)
    ensures Respond(p, issuerKey, privateKey, ledger, line1, line3, draws) == ResponderRun([], None, ledger)
  {
    BadSignatureRejected(p, issuerKey, privateKey, line1, obj);
  }

  /** Every ticket that message 1 yields is in the responder's ledger afterwards, however the run
      ends: a run that fails after admission does not give `n4` back. */
  lemma TicketStaysAdmitted(p: Providers, issuerKey: Bytes, privateKey: Bytes, ledger: set<Int32>,
                            line1: string, line3: string, draws: seq<Int32>)
    requires FreshSupply(draws, ledger)
    requires DecodeMessage1(p, issuerKey, privateKey, line1).Some?
    ensures DecodeMessage1(p, issuerKey, privateKey, line1).value.ticketCredentials.n4
            in Respond(p, issuerKey, privateKey, ledger, line1, line3, draws).ledger
  {
    var req := DecodeMessage1(p, issuerKey, privateKey, line1).value;
    var n4 := req.ticketCredentials.n4;
    if n4 !in ledger {
      RespondReachesAdmitted(p, issuerKey, privateKey, ledger, line1, line3, draws, req);
      AdmittedOutcome(p, req.ticketCredentials, req.n1, ledger + {n4}, line3, ResponderNonce(ledger, n4, draws));
    }
  }

  /** A message 1 whose ticket's `n4` is already in the ledger is rejected, whatever its `n1`: nothing
      is written and the ledger is unchanged. With `TicketStaysAdmitted`, a ticket is accepted at most
      once per ledger. */
  lemma ReplayedTicketRejected(p: Providers, issuerKey: Bytes, privateKey: Bytes, ledger: set<Int32>,
                               line1: string, line3: string, draws: seq<Int32>)
    requires FreshSupply(draws, ledger)
    requires DecodeMessage1(p, issuerKey, privateKey, line1).Some?
    requires DecodeMessage1(p, issuerKey, privateKey, line1).value.ticketCredentials.n4 in ledger
    ensures Respond(p, issuerKey, privateKey, ledger, line1, line3, draws) == ResponderRun([], None, ledger)
  {
  }

  // ---------------------------------------------------------------------------------------------
  // Initiator

  /** A run whose message 1 fits in a frame and whose message 2 passed every check goes on as
      `InitiateConfirmed` from the ledger with `n1 + 1` admitted, with `n3` the second draw: the
      first from the position after `n1` whose successor is outside that ledger. */
  lemma InitiateReachesConfirmed(p: Providers, t: TicketCredentialsReturn, ledger: set<Int32>,
                                 line2: string, line4: string, draws: seq<Int32>, m1: string, v: Verification)
    requires FreshSupply(draws, ledger)
    requires EncodeMessage1(p, t.streamTicket, t.streamSigBytes, InitiatorFirstNonce(ledger, draws)) == Some(m1)
    requires DecodeMessage2(p, t.Keys(), line2, InitiatorFirstNonce(ledger, draws)) == Some(v)
    requires v.n1Echo == Succ(InitiatorFirstNonce(ledger, draws)) && v.ticketValidityConfirmation
    ensures v.n1Echo !in ledger && HasFresh(draws, ledger, 0)
    ensures HasFresh(draws, ledger + {v.n1Echo}, FirstFresh(draws, ledger, 0) + 1)
    ensures InitiatorSecondNonce(ledger, draws) == draws[FirstFresh(draws, ledger + {v.n1Echo}, FirstFresh(draws, ledger, 0) + 1)]
    ensures Succ(InitiatorSecondNonce(ledger, draws)) !in ledger + {v.n1Echo}
    ensures Initiate(p, t, ledger, line2, line4, draws)
            == InitiateConfirmed(p, t, m1, v.n2, ledger + {v.n1Echo}, line4, InitiatorSecondNonce(ledger, draws))
  {
    SupplyAfterFirst(draws, ledger);
    assert Admit(ledger, v.n1Echo) == Some(ledger + {v.n1Echo});
  }

  /** The checks the initiator makes once message 2 passed and `n3` is drawn: message 3 fits in a
      frame, and message 4 decodes under the tag of `n3 + 1` and echoes `n3 + 1`. */
  ghost predicate ConfirmedChecksPass(p: Providers, t: TicketCredentialsReturn, n2: Int32, line4: string, n3: Int32) {
    && EncodeMessage3(p, t.Keys(), Succ(n2), n3).Some?
    && DecodeMessage4(p, t.Keys(), line4, n3).Some?
    && DecodeMessage4(p, t.Keys(), line4, n3).value.n3Echo == Succ(n3)
  }

  /** The checks the initiator makes, stated without its ledger bookkeeping: message 1 fits in a
      frame, message 2 decodes under the tag of `n1 + 1`, echoes `n1 + 1` and confirms the ticket, and
      the checks after that pass. */
  ghost predicate InitiatorChecksPass(p: Providers, t: TicketCredentialsReturn, ledger: set<Int32>,
                                     line2: string, line4: string, draws: seq<Int32>)
    requires FreshSupply(draws, ledger)
  {
    var n1 := InitiatorFirstNonce(ledger, draws);
    && EncodeMessage1(p, t.streamTicket, t.streamSigBytes, n1).Some?
    && DecodeMessage2(p, t.Keys(), line2, n1).Some?
    && var v := DecodeMessage2(p, t.Keys(), line2, n1).value;
    && v.n1Echo == Succ(n1)
    && v.ticketValidityConfirmation
    && ConfirmedChecksPass(p, t, v.n2, line4, InitiatorSecondNonce(ledger, draws))
  }

  /** After message 2 passed and its echo is admitted, with `n3` drawn so that `n3 + 1` is outside
      the ledger: the initiator completes exactly when the remaining checks pass, since admitting
      the echo cannot fail; it wrote message 3 after `m1` unless message 3 overflowed; on completion
      its ledger gained `n3 + 1`. It never forgets a nonce. */
  lemma ConfirmedOutcome(p: Providers, t: TicketCredentialsReturn, m1: string, n2: Int32,
                         ledger1: set<Int32>, line4: string, n3: Int32)
    requires Succ(n3) !in ledger1
    ensures var run := InitiateConfirmed(p, t, m1, n2, ledger1, line4, n3);
      && run.ledger == (if run.completed then ledger1 + {Succ(n3)} else ledger1)
      && (run.completed <==> ConfirmedChecksPass(p, t, n2, line4, n3))
      && run.sent == if EncodeMessage3(p, t.Keys(), Succ(n2), n3).Some?
                     then [m1, EncodeMessage3(p, t.Keys(), Succ(n2), n3).value] else [m1]
    ensures ConfirmedChecksPass(p, t, n2, line4, n3) ==>
      InitiateConfirmed(p, t, m1, n2, ledger1, line4, n3)
        == InitiatorRun([m1, EncodeMessage3(p, t.Keys(), Succ(n2), n3).value], true, ledger1 + {Succ(n3)})
  {
    assert Admit(ledger1, Succ(n3)) == Some(ledger1 + {Succ(n3)});
  }

  /** The initiator's early exits: a message 1 that overflows its frame is never written, and a
      message 2 that fails its tag, its echo of `n1 + 1` or its confirmation ends the run after
      message 1; either way the ledger is unchanged. */
  lemma InitiatorEarlyExits(p: Providers, t: TicketCredentialsReturn, ledger: set<Int32>,
                            line2: string, line4: string, draws: seq<Int32>)
    requires FreshSupply(draws, ledger)
    ensures var n1 := InitiatorFirstNonce(ledger, draws);
      var m1 := EncodeMessage1(p, t.streamTicket, t.streamSigBytes, n1);
      var v := DecodeMessage2(p, t.Keys(), line2, n1);
      && (m1.None? ==> Initiate(p, t, ledger, line2, line4, draws) == InitiatorRun([], false, ledger))
      && (m1.Some? && !(v.Some? && v.value.n1Echo == Succ(n1) && v.value.ticketValidityConfirmation) ==>
            Initiate(p, t, ledger, line2, line4, draws) == InitiatorRun([m1.value], false, ledger))
  {
  }

  /** The initiator completes exactly when its checks pass; admitting the echoes `n1 + 1` and
      `n3 + 1` can never be what fails. Message 3 is written only after message 2 passed every
      check. It never forgets a nonce. */
  lemma InitiatorOutcome(p: Providers, t: TicketCredentialsReturn, ledger: set<Int32>,
                         line2: string, line4: string, draws: seq<Int32>)
    requires FreshSupply(draws, ledger)
    ensures var run := Initiate(p, t, ledger, line2, line4, draws);
      && ledger <= run.ledger
      && (run.completed <==> InitiatorChecksPass(p, t, ledger, line2, line4, draws))
    ensures var run := Initiate(p, t, ledger, line2, line4, draws);
      var n1 := InitiatorFirstNonce(ledger, draws);
      |run.sent| == 2 ==>
        && DecodeMessage2(p, t.Keys(), line2, n1).Some?
        && DecodeMessage2(p, t.Keys(), line2, n1).value.n1Echo == Succ(n1)
        && DecodeMessage2(p, t.Keys(), line2, n1).value.ticketValidityConfirmation
  {
    var n1 := InitiatorFirstNonce(ledger, draws);
    var m1 := EncodeMessage1(p, t.streamTicket, t.streamSigBytes, n1);
    var v := DecodeMessage2(p, t.Keys(), line2, n1);
    if m1.Some? && v.Some? && v.value.n1Echo == Succ(n1) && v.value.ticketValidityConfirmation {
      InitiateReachesConfirmed(p, t, ledger, line2, line4, draws, m1.value, v.value);
      ConfirmedOutcome(p, t, m1.value, v.value.n2, ledger + {Succ(n1)}, line4, InitiatorSecondNonce(ledger, draws));
    } else {
      InitiatorEarlyExits(p, t, ledger, line2, line4, draws);
      assert !InitiatorChecksPass(p, t, ledger, line2, line4, draws);
    }
  }

  /** An initiator whose checks pass wrote message 1 (with `n1`) and message 3 (echo `n2 + 1`, with
      `n3`), and its ledger grew by exactly `n1 + 1` and `n3 + 1`. */
  lemma InitiatorSuccess(p: Providers, t: TicketCredentialsReturn, ledger: set<Int32>,
                         line2: string, line4: string, draws: seq<Int32>)
    requires FreshSupply(draws, ledger)
    requires InitiatorChecksPass(p, t, ledger, line2, line4, draws)
    ensures var n1 := InitiatorFirstNonce(ledger, draws);
      var n3 := InitiatorSecondNonce(ledger, draws);
      var v := DecodeMessage2(p, t.Keys(), line2, n1).value;
      && Initiate(p, t, ledger, line2, line4, draws)
         == InitiatorRun([EncodeMessage1(p, t.streamTicket, t.streamSigBytes, n1).value,
                          EncodeMessage3(p, t.Keys(), Succ(v.n2), n3).value],
                         true, ledger + {Succ(n1), Succ(n3)})
      && |ledger + {Succ(n1), Succ(n3)}| == |ledger| + 2
  {
    var n1 := InitiatorFirstNonce(ledger, draws);
    var n3 := InitiatorSecondNonce(ledger, draws);
    var m1 := EncodeMessage1(p, t.streamTicket, t.streamSigBytes, n1).value;
    var v := DecodeMessage2(p, t.Keys(), line2, n1).value;
    InitiateReachesConfirmed(p, t, ledger, line2, line4, draws, m1, v);
    ConfirmedOutcome(p, t, m1, v.n2, ledger + {Succ(n1)}, line4, n3);
    assert ledger + {Succ(n1)} + {Succ(n3)} == ledger + {Succ(n1), Succ(n3)};
  }

  /** A message 2 that echoes anything but `n1 + 1` (the responder's `n1` itself, say) aborts the
      initiator after message 1: message 3 is never written and the ledger is unchanged. */
  lemma WrongEchoAborts(p: Providers, t: TicketCredentialsReturn, ledger: set<Int32>,
                        line2: string, line4: string, draws: seq<Int32>)
    requires FreshSupply(draws, ledger)
    requires var n1 := InitiatorFirstNonce(ledger, draws);
      && DecodeMessage2(p, t.Keys(), line2, n1).Some?
      && DecodeMessage2(p, t.Keys(), line2, n1).value.n1Echo != Succ(n1)
    ensures var run := Initiate(p, t, ledger, line2, line4, draws);
      !run.completed && |run.sent| <= 1 && run.ledger == ledger
  {
  }

  // ---------------------------------------------------------------------------------------------
  // Both sides

  /** An honest run end to end. The initiator holds a ticket the issuer signed and sealed for the
      responder, whose unsealed form carries the same session keys and an `n4` the responder has not
      seen; each side's random source can serve its draws; and no frame overflows. Fed each other's
      lines, both sides complete: the responder returns the issued ticket, and each ledger grows by
      the two echoes it admitted (the responder's also by `n4`). */
  lemma HonestHandshake(p: Providers, issuerKey: Bytes, privateKey: Bytes, t: TicketCredentialsReturn,
                        output: Bytes, tc: TicketCredentials,
                        ledgerI: set<Int32>, drawsI: seq<Int32>, ledgerR: set<Int32>, drawsR: seq<Int32>)
    requires p.Sound()
    requires p.verify(issuerKey, t.streamTicket, t.streamSigBytes)
    requires p.unseal(privateKey, t.streamTicket) == Some(output) && p.readTicket(output) == Some(tc)
    requires tc.Keys() == t.Keys() && tc.n4 !in ledgerR
    requires FreshSupply(drawsI, ledgerI) && FreshSupply(drawsR, ledgerR)
    requires var n1, n2, n3 := InitiatorFirstNonce(ledgerI, drawsI), ResponderNonce(ledgerR, tc.n4, drawsR),
                               InitiatorSecondNonce(ledgerI, drawsI);
      && EncodeMessage1(p, t.streamTicket, t.streamSigBytes, n1).Some?
      && EncodeMessage2(p, t.Keys(), Succ(n1), n2, true).Some?
      && EncodeMessage3(p, t.Keys(), Succ(n2), n3).Some?
      && EncodeMessage4(p, t.Keys(), InitMark(p), Succ(n3)).Some?
    ensures var n1, n2, n3 := InitiatorFirstNonce(ledgerI, drawsI), ResponderNonce(ledgerR, tc.n4, drawsR),
                              InitiatorSecondNonce(ledgerI, drawsI);
      var m1 := EncodeMessage1(p, t.streamTicket, t.streamSigBytes, n1).value;
      var m2 := EncodeMessage2(p, t.Keys(), Succ(n1), n2, true).value;
      var m3 := EncodeMessage3(p, t.Keys(), Succ(n2), n3).value;
      var m4 := EncodeMessage4(p, t.Keys(), InitMark(p), Succ(n3)).value;
      && Respond(p, issuerKey, privateKey, ledgerR, m1, m3, drawsR)
         == ResponderRun([m2, m4], Some(tc), ledgerR + {tc.n4, Succ(n2)})
      && Initiate(p, t, ledgerI, m2, m4, drawsI)
         == InitiatorRun([m1, m3], true, ledgerI + {Succ(n1), Succ(n3)})
  {
    var n1, n2, n3 := InitiatorFirstNonce(ledgerI, drawsI), ResponderNonce(ledgerR, tc.n4, drawsR),
                      InitiatorSecondNonce(ledgerI, drawsI);
    var keys := t.Keys();
    var m1 := EncodeMessage1(p, t.streamTicket, t.streamSigBytes, n1).value;
    var m2 := EncodeMessage2(p, keys, Succ(n1), n2, true).value;
    var m3 := EncodeMessage3(p, keys, Succ(n2), n3).value;
    var m4 := EncodeMessage4(p, keys, InitMark(p), Succ(n3)).value;
    RoundTrip1(p, issuerKey, privateKey, t.streamTicket, t.streamSigBytes, n1, output, tc);
    RoundTrip2(p, keys, n1, n2, true);
    RoundTrip3(p, keys, n2, n3);
    RoundTrip4(p, keys, InitMark(p), n3);
    ResponderSuccess(p, issuerKey, privateKey, ledgerR, m1, m3, drawsR);
    InitiatorSuccess(p, t, ledgerI, m2, m4, drawsI);
  }
}
