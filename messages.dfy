/** `encodeMessage1..4` and `decodeMessage1..4`: the four handshake messages on the wire. Message 1
    carries the sealed ticket in the clear; messages 2 to 4 carry an AES-CTR ciphertext followed by
    an HMAC-SHA512 tag computed over the echoed nonce alone. */
module Messages {
  import opened Wrappers
  import opened JavaInt
  import opened Entities
  import opened Providers
  import opened Frame

  /** The integrity tag of messages 2 to 4: the HMAC of the echoed nonce. It does not cover the
      ciphertext. */
  function Tag(p: Providers, macKey: Bytes, echo: Int32): Bytes {
    p.hmac(macKey, p.intBytes(echo))
  }

  /** The steps `encodeMessage2..4` share once the body is serialised: encrypt it, tag the echoed
      nonce, frame both, hex-encode the frame. */
  function Seal(p: Providers, kind: Byte, keys: SessionKeys, payload: Bytes, echo: Int32): Option<string> {
    match Frame.Encode(kind, p.encrypt(keys.sessionKey, keys.sessionIV, payload), Tag(p, keys.macKey, echo))
    case None => None
    case Some(frame) => Some(p.toHex(frame))
  }

  /** The steps `decodeMessage2..4` share before deserialising: hex-decode, split the frame, compare
      the tag with the HMAC of `myLastNounce + 1`, and only then decrypt. */
  function Open(p: Providers, kind: Byte, keys: SessionKeys, line: string, myLastNounce: Int32): Option<Bytes> {
    match Frame.Decode(kind, p.fromHex(line))
    case None => None
    case Some((ciphertext, tag)) =>
      if tag != Tag(p, keys.macKey, Succ(myLastNounce)) then None
      else p.decrypt(keys.sessionKey, keys.sessionIV, ciphertext)
  }

  function EncodeMessage1(p: Providers, ticket: Bytes, signature: Bytes, n1: Int32): Option<string> {
    match Frame.Encode(Message1, p.showRequest(RequestAndCredentialsSend(ticket, signature, n1)), [])
    case None => None
    case Some(frame) => Some(p.toHex(frame))
  }

  /** `decodeMessage1`: read the request, verify the issuer's signature over the sealed ticket,
      and only then unseal it with the responder's private key and read the ticket. */
  function DecodeMessage1(p: Providers, issuerKey: Bytes, privateKey: Bytes, line: string): Option<RequestAndCredentials> {
    match Frame.Decode(Message1, p.fromHex(line))
    case None => None
    case Some((payload, _)) =>
      match p.readRequest(payload)
      case None => None
      case Some(obj) =>
        if !p.verify(issuerKey, obj.ticketCredentials, obj.signature) then None
        else
          match p.unseal(privateKey, obj.ticketCredentials)
          case None => None
          case Some(output) =>
            match p.readTicket(output)
            case None => None
            case Some(tc) => Some(RequestAndCredentials(tc, obj.n1))
  }

  function EncodeMessage2(p: Providers, keys: SessionKeys, n1Echo: Int32, n2: Int32, confirmation: bool): Option<string> {
    Seal(p, Message2, keys, p.showVerification(Verification(n1Echo, n2, confirmation)), n1Echo)
  }

  function DecodeMessage2(p: Providers, keys: SessionKeys, line: string, myLastNounce: Int32): Option<Verification> {
    match Open(p, Message2, keys, line, myLastNounce)
    case None => None
    case Some(payload) => p.readVerification(payload)
  }

  function EncodeMessage3(p: Providers, keys: SessionKeys, n2Echo: Int32, n3: Int32): Option<string> {
    Seal(p, Message3, keys, p.showAck(AckVerification(n2Echo, n3)), n2Echo)
  }

  function DecodeMessage3(p: Providers, keys: SessionKeys, line: string, myLastNounce: Int32): Option<AckVerification> {
    match Open(p, Message3, keys, line, myLastNounce)
    case None => None
    case Some(payload) => p.readAck(payload)
  }

  function EncodeMessage4(p: Providers, keys: SessionKeys, frame: Bytes, n3Echo: Int32): Option<string> {
    Seal(p, Message4, keys, p.showSync(SyncInitialFrame(n3Echo, frame)), n3Echo)
  }

  function DecodeMessage4(p: Providers, keys: SessionKeys, line: string, myLastNounce: Int32): Option<SyncInitialFrame> {
    match Open(p, Message4, keys, line, myLastNounce)
    case None => None
    case Some(payload) => p.readSync(payload)
  }

  // ---------------------------------------------------------------------------------------------
  // Layout

  /** An authenticated frame is the header, the ciphertext and the tag over the echoed nonce; its
      length field counts the ciphertext only. It is produced unless the frame size overflows. */
  lemma SealLayout(p: Providers, kind: Byte, keys: SessionKeys, payload: Bytes, echo: Int32)
    requires p.Sound()
    ensures var ciphertext, tag := p.encrypt(keys.sessionKey, keys.sessionIV, payload), Tag(p, keys.macKey, echo);
      && (Seal(p, kind, keys, payload, echo).Some? <==> Fits(ciphertext, tag))
      && (Seal(p, kind, keys, payload, echo).Some? ==>
            var data := p.fromHex(Seal(p, kind, keys, payload, echo).value);
            && |data| == HeaderSize + |ciphertext| + |tag|
            && data[0] == Version && data[1] == kind
            && FromBigEndian(data[2..HeaderSize]) == |ciphertext|
            && data[HeaderSize..HeaderSize + |ciphertext|] == ciphertext
            && data[HeaderSize + |ciphertext|..] == tag)
  {
  }

  // ---------------------------------------------------------------------------------------------
  // Round trips

  /** What `Seal` produces with the echo `n + 1`, `Open` accepts under `myLastNounce == n`. */
  lemma SealOpen(p: Providers, kind: Byte, keys: SessionKeys, payload: Bytes, n: Int32)
    requires p.Sound()
    requires Seal(p, kind, keys, payload, Succ(n)).Some?
    ensures Open(p, kind, keys, Seal(p, kind, keys, payload, Succ(n)).value, n) == Some(payload)
  {
    var ciphertext := p.encrypt(keys.sessionKey, keys.sessionIV, payload);
    var tag := Tag(p, keys.macKey, Succ(n));
    var frame := Frame.Encode(kind, ciphertext, tag).value;
    DecodeEncode(kind, ciphertext, tag, frame);
  }

  lemma RoundTrip1(p: Providers, issuerKey: Bytes, privateKey: Bytes, ticket: Bytes, signature: Bytes,
                   n1: Int32, output: Bytes, tc: TicketCredentials)
    requires p.Sound()
    requires p.verify(issuerKey, ticket, signature)
    requires p.unseal(privateKey, ticket) == Some(output) && p.readTicket(output) == Some(tc)
    requires EncodeMessage1(p, ticket, signature, n1).Some?
    ensures DecodeMessage1(p, issuerKey, privateKey, EncodeMessage1(p, ticket, signature, n1).value)
            == Some(RequestAndCredentials(tc, n1))
  {
    var payload := p.showRequest(RequestAndCredentialsSend(ticket, signature, n1));
    DecodeEncode(Message1, payload, [], Frame.Encode(Message1, payload, []).value);
  }

  lemma RoundTrip2(p: Providers, keys: SessionKeys, n: Int32, n2: Int32, confirmation: bool)
    requires p.Sound()
    requires EncodeMessage2(p, keys, Succ(n), n2, confirmation).Some?
    ensures DecodeMessage2(p, keys, EncodeMessage2(p, keys, Succ(n), n2, confirmation).value, n)
            == Some(Verification(Succ(n), n2, confirmation))
  {
    SealOpen(p, Message2, keys, p.showVerification(Verification(Succ(n), n2, confirmation)), n);
  }

  lemma RoundTrip3(p: Providers, keys: SessionKeys, n: Int32, n3: Int32)
    requires p.Sound()
    requires EncodeMessage3(p, keys, Succ(n), n3).Some?
    ensures DecodeMessage3(p, keys, EncodeMessage3(p, keys, Succ(n), n3).value, n) == Some(AckVerification(Succ(n), n3))
  {
    SealOpen(p, Message3, keys, p.showAck(AckVerification(Succ(n), n3)), n);
  }

  lemma RoundTrip4(p: Providers, keys: SessionKeys, frame: Bytes, n: Int32)
    requires p.Sound()
    requires EncodeMessage4(p, keys, frame, Succ(n)).Some?
    ensures DecodeMessage4(p, keys, EncodeMessage4(p, keys, frame, Succ(n)).value, n) == Some(SyncInitialFrame(Succ(n), frame))
  {
    SealOpen(p, Message4, keys, p.showSync(SyncInitialFrame(Succ(n), frame)), n);
  }

  // ---------------------------------------------------------------------------------------------
  // What the decoders check

  /** A decoded message 1 passed every check, in order: the request was read, the signature over
      the sealed ticket verified, and only then the ticket was unsealed and read. */
  lemma DecodeMessage1Checks(p: Providers, issuerKey: Bytes, privateKey: Bytes, line: string)
    requires DecodeMessage1(p, issuerKey, privateKey, line).Some?
    ensures var split := Frame.Decode(Message1, p.fromHex(line));
      && split.Some?
      && p.readRequest(split.value.0).Some?
      && var obj := p.readRequest(split.value.0).value;
      && p.verify(issuerKey, obj.ticketCredentials, obj.signature)
      && p.unseal(privateKey, obj.ticketCredentials).Some?
      && p.readTicket(p.unseal(privateKey, obj.ticketCredentials).value)
         == Some(DecodeMessage1(p, issuerKey, privateKey, line).value.ticketCredentials)
      && DecodeMessage1(p, issuerKey, privateKey, line).value.n1 == obj.n1
  {
  }

  /** A request whose signature does not verify is rejected whatever unsealing would give. */
  lemma BadSignatureRejected(p: Providers, issuerKey: Bytes, privateKey: Bytes, line: string, obj: RequestAndCredentialsSend)
    requires Frame.Decode(Message1, p.fromHex(line)).Some?
    requires p.readRequest(Frame.Decode(Message1, p.fromHex(line)).value.0) == Some(obj)
    requires !p.verify(issuerKey, obj.ticketCredentials, obj.signature)
    ensures DecodeMessage1(p, issuerKey, privateKey, line) == None
  {
  }

  /** Message 1 has no tag, so bytes after its body are ignored. */
  lemma Message1IgnoresTrailing(p: Providers, issuerKey: Bytes, privateKey: Bytes, payload: Bytes, extra: Bytes)
    requires p.Sound()
    requires Fits(payload, extra)
    ensures Frame.Encode(Message1, payload, []).Some?
    ensures DecodeMessage1(p, issuerKey, privateKey, p.toHex(Frame.Encode(Message1, payload, []).value + extra))
         == DecodeMessage1(p, issuerKey, privateKey, p.toHex(Frame.Encode(Message1, payload, []).value))
  {
    TrailingBytes(Message1, payload, [], extra);
    TrailingBytes(Message1, payload, [], []);
  }

  /** An authenticated message is opened only when its tag equals the HMAC of `Succ(myLastNounce)`,
      and the plaintext is then the decryption of the declared body; a wrong tag rejects it before
      any decryption. */
  lemma OpenChecksTag(p: Providers, kind: Byte, keys: SessionKeys, line: string, myLastNounce: Int32)
    ensures var split := Frame.Decode(kind, p.fromHex(line));
      && (Open(p, kind, keys, line, myLastNounce).Some? ==>
            && split.Some?
            && split.value.1 == Tag(p, keys.macKey, Succ(myLastNounce))
            && Open(p, kind, keys, line, myLastNounce) == p.decrypt(keys.sessionKey, keys.sessionIV, split.value.0))
      && (split.Some? && split.value.1 != Tag(p, keys.macKey, Succ(myLastNounce)) ==>
            Open(p, kind, keys, line, myLastNounce) == None)
  {
  }

  /** The tag binds the echoed nonce and nothing else: a frame carrying ANY ciphertext (a tampered
      one included) with the tag of the expected echo passes the integrity check and reaches
      decryption. This is the design's known weakness, reproduced as written. */
  lemma TagIgnoresCiphertext(p: Providers, kind: Byte, keys: SessionKeys, ciphertext: Bytes, n: Int32)
    requires p.Sound()
    requires Fits(ciphertext, Tag(p, keys.macKey, Succ(n)))
    ensures Frame.Encode(kind, ciphertext, Tag(p, keys.macKey, Succ(n))).Some?
    ensures Open(p, kind, keys, p.toHex(Frame.Encode(kind, ciphertext, Tag(p, keys.macKey, Succ(n))).value), n)
         == p.decrypt(keys.sessionKey, keys.sessionIV, ciphertext)
  {
    var frame := Frame.Encode(kind, ciphertext, Tag(p, keys.macKey, Succ(n))).value;
    DecodeEncode(kind, ciphertext, Tag(p, keys.macKey, Succ(n)), frame);
  }
}
