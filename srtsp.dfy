/** The `SRTSP` object: the nonce ledger it keeps in its `nounces` field, the `newNounce` and
    `addSeenNounce` operations on it, and the two handshake procedures that read and write lines
    and update the ledger as they go. Incoming lines are parameters, written lines are results.
    Each handshake is written twice: here as a method that updates the ledger step by step, and in
    `Handshake` as a function; each method is proved equal to its function, and the properties of a
    run are lemmas about the function. */
module Srtsp {
  import opened Wrappers
  import opened JavaInt
  import opened Entities
  import opened Providers
  import opened Messages
  import opened Nonces
  import opened Handshake

  class SRTSP {
    /** The cryptographic, serialisation and hex libraries. */
    const providers: Providers
    /** The public key of the key store's "signalingserver" certificate: the ticket issuer's. */
    const issuerKey: Bytes
    /** The key store's "streamingserver" private key, which unseals tickets. */
    const privateKey: Bytes
    /** Every nonce admitted on this object. */
    var nounces: set<Int32>

    constructor (providers: Providers, issuerKey: Bytes, privateKey: Bytes)
      ensures this.providers == providers && this.issuerKey == issuerKey && this.privateKey == privateKey
      ensures nounces == {}
    {
      this.providers := providers;
      this.issuerKey := issuerKey;
      this.privateKey := privateKey;
      nounces := {};
    }

    /** `newNounce`: keep drawing until the draw's successor (with wrap-around) is not in the ledger.
        The draws are `draws[from..]`; `next` is the position after the one taken. The ledger is
        only read. */
    method NewNounce(draws: seq<Int32>, from: nat) returns (random: Int32, next: nat)
      requires HasFresh(draws, nounces, from)
      ensures from < next <= |draws| && random == draws[next - 1]
      ensures Succ(random) !in nounces
      ensures forall j | from <= j < next - 1 :: Succ(draws[j]) in nounces
      ensures next - 1 == FirstFresh(draws, nounces, from)
    {
      var i := from;
      random := draws[i];
      i := i + 1;
      while Succ(random) in nounces
        invariant from < i <= |draws| && random == draws[i - 1]
        invariant forall j | from <= j < i - 1 :: Succ(draws[j]) in nounces
        invariant HasFresh(draws, nounces, i - 1)
        decreases |draws| - i
      {
        random := draws[i];
        i := i + 1;
      }
      next := i;
    }

    /** `addSeenNounce`: `ok == false` is the exception thrown for a nonce already admitted, and
        leaves the ledger as it was. */
    method AddSeenNounce(nounce: Int32) returns (ok: bool)
      modifies this`nounces
      ensures ok <==> nounce !in old(nounces)
      ensures nounces == if ok then old(nounces) + {nounce} else old(nounces)
      ensures Admit(old(nounces), nounce) == if ok then Some(nounces) else None
    {
      if nounce !in nounces {
        nounces := nounces + {nounce};
        ok := true;
      } else {
        ok := false;
      }
    }

    /** `startReceiveTicket` once the connection is accepted: read message 1, admit the ticket's
        `n4`, write message 2, read message 3, admit its echo, write message 4, return the ticket.
        `ticket == None` is an exception; `sent` holds the lines written before it. */
    method StartReceiveTicket(line1: string, line3: string, draws: seq<Int32>)
      returns (sent: seq<string>, ticket: Option<TicketCredentials>)
      requires FreshSupply(draws, nounces)
      modifies this`nounces
      ensures ResponderRun(sent, ticket, nounces)
              == Respond(providers, issuerKey, privateKey, old(nounces), line1, line3, draws)
    {
      ghost var ledger := nounces;
      sent, ticket := [], None;
      var requestAndCredentials := DecodeMessage1(providers, issuerKey, privateKey, line1);
      if requestAndCredentials.None? {
        return;
      }
      var tc := requestAndCredentials.value.ticketCredentials;
      var ok := AddSeenNounce(tc.n4);
      if !ok {
        ReplayedTicketRejected(providers, issuerKey, privateKey, ledger, line1, line3, draws);
        return;
      }
      SupplyAfterAdmit(draws, ledger, tc.n4);
      var myLastNounce, _ := NewNounce(draws, 0);
      assert myLastNounce == ResponderNonce(ledger, tc.n4, draws);
      RespondReachesAdmitted(providers, issuerKey, privateKey, ledger, line1, line3, draws, requestAndCredentials.value);
      AdmittedOutcome(providers, tc, requestAndCredentials.value.n1, nounces, line3, myLastNounce);
      var verification := EncodeMessage2(providers, tc.Keys(), Succ(requestAndCredentials.value.n1), myLastNounce, true);
      if verification.None? {
        return;
      }
      sent := [verification.value];
      var ackVerification := DecodeMessage3(providers, tc.Keys(), line3, myLastNounce);
      if ackVerification.None? || ackVerification.value.n2Echo != Succ(myLastNounce) {
        return;
      }
      ok := AddSeenNounce(ackVerification.value.n2Echo);
      if !ok {
        // unreachable: `myLastNounce` was drawn with its successor outside the ledger
        assert false;
        return;
      }
      var syncInitialFrame := EncodeMessage4(providers, tc.Keys(), InitMark(providers), Succ(ackVerification.value.n3));
      if syncInitialFrame.None? {
        return;
      }
      sent := [verification.value, syncInitialFrame.value];
      ticket := Some(tc);
    }

    /** `requestMovie` once the connection is open: draw `n1`, write message 1, read message 2 and
        check its echo and confirmation, admit the echo, draw `n3`, write message 3, read message 4
        and check its echo, admit it. `completed == false` is an exception; `sent` holds the lines
        written before it. */
    method RequestMovie(ticketCredentials: TicketCredentialsReturn, line2: string, line4: string, draws: seq<Int32>)
      returns (sent: seq<string>, completed: bool)
      requires FreshSupply(draws, nounces)
      modifies this`nounces
      ensures InitiatorRun(sent, completed, nounces)
              == Initiate(providers, ticketCredentials, old(nounces), line2, line4, draws)
    {
      ghost var ledger := nounces;
      var keys := ticketCredentials.Keys();
      sent, completed := [], false;
      SupplyAfterFirst(draws, ledger);
      var myLastNounce, next := NewNounce(draws, 0);
      assert myLastNounce == InitiatorFirstNonce(ledger, draws);
      InitiatorEarlyExits(providers, ticketCredentials, ledger, line2, line4, draws);
      var requestAndCredentials := EncodeMessage1(providers, ticketCredentials.streamTicket, ticketCredentials.streamSigBytes, myLastNounce);
      if requestAndCredentials.None? {
        assert Initiate(providers, ticketCredentials, ledger, line2, line4, draws) == InitiatorRun([], false, ledger);
        return;
      }
      sent := [requestAndCredentials.value];
      var verification := DecodeMessage2(providers, keys, line2, myLastNounce);
      if verification.None? || verification.value.n1Echo != Succ(myLastNounce) || !verification.value.ticketValidityConfirmation {
        assert Initiate(providers, ticketCredentials, ledger, line2, line4, draws) == InitiatorRun(sent, false, ledger);
        return;
      }
      var ok := AddSeenNounce(verification.value.n1Echo);
      if !ok {
        // unreachable: `myLastNounce` was drawn with its successor outside the ledger
        assert false;
        return;
      }
      InitiateReachesConfirmed(providers, ticketCredentials, ledger, line2, line4, draws, requestAndCredentials.value, verification.value);
      assert nounces == ledger + {verification.value.n1Echo};
      sent, completed := SendAckAwaitSync(ticketCredentials, requestAndCredentials.value, verification.value.n2, line4, draws, next);
    }

    /** The rest of `requestMovie` once message 2 passed and its echo is admitted: draw `n3` from
        position `from` on, write message 3 (echo `n2 + 1`), read message 4 and check its echo, admit
        it. `sent` starts with message 1, `m1`. */
    method SendAckAwaitSync(ticketCredentials: TicketCredentialsReturn, m1: string, n2: Int32, line4: string,
                            draws: seq<Int32>, from: nat)
      returns (sent: seq<string>, completed: bool)
      requires HasFresh(draws, nounces, from)
      modifies this`nounces
      ensures InitiatorRun(sent, completed, nounces)
              == InitiateConfirmed(providers, ticketCredentials, m1, n2, old(nounces), line4,
                                   draws[FirstFresh(draws, old(nounces), from)])
    {
      var n3, _ := NewNounce(draws, from);
      ghost var ledger1 := nounces;
      ghost var spec := InitiateConfirmed(providers, ticketCredentials, m1, n2, ledger1, line4, n3);
      ConfirmedOutcome(providers, ticketCredentials, m1, n2, ledger1, line4, n3);
      sent, completed := [m1], false;
      var ackVerification := EncodeMessage3(providers, ticketCredentials.Keys(), Succ(n2), n3);
      if ackVerification.None? {
        assert spec == InitiatorRun(sent, false, ledger1);
        return;
      }
      sent := [m1, ackVerification.value];
      var syncInitialFrame := DecodeMessage4(providers, ticketCredentials.Keys(), line4, n3);
      if syncInitialFrame.None? || syncInitialFrame.value.n3Echo != Succ(n3) {
        assert spec == InitiatorRun(sent, false, ledger1);
        return;
      }
      var ok := AddSeenNounce(syncInitialFrame.value.n3Echo);
      if !ok {
        // unreachable: `n3` was drawn with its successor outside the ledger
        assert false;
        return;
      }
      assert Admit(ledger1, Succ(n3)) == Some(ledger1 + {Succ(n3)});
      completed := true;
    }
  }
}
