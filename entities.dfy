/** The message bodies and ticket records that the handshake serialises (the `jsonEntities` beans). */
module Entities {
  import opened JavaInt

  /** Body of message 1 (`RequestAndCredentialsSend`): the sealed ticket, the issuer's signature
      over it, and the initiator's nonce `n1`. */
  datatype RequestAndCredentialsSend = RequestAndCredentialsSend(ticketCredentials: Bytes, signature: Bytes, n1: Int32)

  /** Body of message 2 (`Verification`): `n1Echo` is the bean's `n1_`. */
  datatype Verification = Verification(n1Echo: Int32, n2: Int32, ticketValidityConfirmation: bool)

  /** Body of message 3 (`AckVerification`): `n2Echo` is the bean's `n2_`. */
  datatype AckVerification = AckVerification(n2Echo: Int32, n3: Int32)

  /** Body of message 4 (`SyncInitialFrame`): `n3Echo` is the bean's `n3_`. */
  datatype SyncInitialFrame = SyncInitialFrame(n3Echo: Int32, frame: Bytes)

  /** The symmetric material a ticket carries: AES key, AES-CTR IV, HMAC-SHA512 key. */
  datatype SessionKeys = SessionKeys(sessionKey: Bytes, sessionIV: Bytes, macKey: Bytes)

  /** The unsealed ticket the responder recovers (`srsc.srtsp.jsonEntities.TicketCredentials`),
      reduced to the getters the handshake calls: the session keys and the issuance nonce `n4_`. */
  datatype TicketCredentials = TicketCredentials(sessionKey: Bytes, sessionIV: Bytes, macKey: Bytes, n4: Int32)
  {
    function Keys(): SessionKeys {
      SessionKeys(sessionKey, sessionIV, macKey)
    }
  }

  /** What message 1 decodes to (`RequestAndCredentials`): the unsealed ticket and `n1`. */
  datatype RequestAndCredentials = RequestAndCredentials(ticketCredentials: TicketCredentials, n1: Int32)

  /** The initiator's bundle from the ticket-issuance protocol (`TicketCredentialsReturn`): the
      sealed ticket and its signature as issued, plus the same session keys in the clear. */
  datatype TicketCredentialsReturn = TicketCredentialsReturn(
    ip: string, port: string, streamTicket: Bytes, streamSigBytes: Bytes,
    sessionKey: Bytes, sessionIV: Bytes, macKey: Bytes)
  {
    function Keys(): SessionKeys {
      SessionKeys(sessionKey, sessionIV, macKey)
    }
  }
}
