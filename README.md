# SRTSP handshake — a Dafny model

SRTSP is the session-establishment protocol of a media proxy and streaming server. The connecting
side (`requestMovie`) holds a ticket that an issuer signed and sealed for the accepting side. The
accepting side (`startReceiveTicket`) verifies the signature, unseals the ticket, and runs a
four-message exchange. In that exchange each side proves it holds the ticket's session keys by
echoing the other's nonce plus one.

The model has five layers:

- **Frame codec** (`frame.dfy`, module `Frame`). A frame is a 6-byte header (version `3`, message
  type `1`–`4`, big-endian signed body length), then the body, then the tag for messages 2–4.
  Decoding splits off the declared body and takes every remaining byte as the tag. It rejects a
  wrong version or type, a negative length and a buffer shorter than the header plus the length.
- **Messages** (`messages.dfy`, module `Messages`). These are `encodeMessage1..4` and
  `decodeMessage1..4`. Message 1 carries the sealed ticket, its signature and `n1`. Messages 2–4
  carry an AES-CTR ciphertext and an HMAC-SHA512 tag computed over the echoed nonce only.
- **Nonce ledger** (`nonces.dfy` for the specification, `srtsp.dfy` for the methods). The ledger
  is the `nounces` set. `addSeenNounce` admits a nonce or fails on a duplicate. `newNounce` draws
  until the draw's successor, with Java `int` wrap-around, is outside the set.
- **Handshake** (`handshake.dfy`). `Respond` and `Initiate` are pure functions. Each takes the
  lines one side reads and gives the lines it writes, whether it succeeded, and its ledger
  afterwards.
- **The `SRTSP` object** (`srtsp.dfy`). It is a class with the `nounces` field. Its methods
  `NewNounce`, `AddSeenNounce`, `StartReceiveTicket` and `RequestMovie` change the ledger in place,
  and each handshake method is proved equal to its spec function.

Java `int` is `bv32`, so `n + 1` wraps as in Java (`JavaInt.Succ`). A `byte[]` is a sequence of
bytes. Every thrown exception is a single failure outcome (`None` or `false`), because the source
throws a bare `Exception` everywhere.

ECDSA, ECIES, AES-CTR, HMAC-SHA512, Gson and the `Utils` conversions are not implemented here. They
are function-valued fields of `Providers.Providers`, so the model does not depend on how they work.
`Providers.Sound()` assumes only three things about them:

- decryption inverts encryption under the same key and IV;
- each message body reads back as it was written;
- hex decoding inverts hex encoding.

HMAC is a function, so it is deterministic. `SecureRandom` is an oracle sequence `draws`.

## Model

| member | source | states |
|---|---|---|
| `JavaInt.SuccInjective` | src/main/java/srsc/srtsp/SRTSP.java:135 | `Succ`, Java's wrapping `n + 1` on an `int`, is one-to-one: two nonces have the same successor only if they are equal, so an echo `n + 1` names exactly one `n` |
| `JavaInt.BigEndian` | src/main/java/srsc/srtsp/SRTSP.java:230 | `putInt` of a length writes exactly four bytes |
| `JavaInt.BigEndianRoundTrip` | src/main/java/srsc/srtsp/SRTSP.java:230 | a length written with `putInt` reads back with `getInt` unchanged |
| `JavaInt.FromBigEndianRoundTrip` | src/main/java/srsc/srtsp/SRTSP.java:250 | four bytes that `getInt` reads as a non-negative length are exactly what `putInt` writes for that length |
| `JavaInt.FromBigEndian` | src/main/java/srsc/srtsp/SRTSP.java:314 | the length field reads as a Java `int` in range, negative exactly when the top bit of its first byte is set |
| `Frame.Encode` | src/main/java/srsc/srtsp/SRTSP.java:294-295 | a frame is produced exactly when `Fits` holds, that is when `HEADERSIZE + body + tag` does not overflow `int` (otherwise `allocate` throws); it is `[3, type]`, then the body length big-endian (the tag not counted), then the body, then the tag; total length is 6 + body + tag |
| `Frame.Decode` | src/main/java/srsc/srtsp/SRTSP.java:308-318 | an accepted buffer starts with version 3 and the expected type, and its length is the header plus the body and tag returned (that they re-encode to the buffer is `Frame.DecodeEncode`) |
| `Frame.DecodeEncode` | src/main/java/srsc/srtsp/SRTSP.java:314-318 | for any buffer of Java array size, decoding gives (body, tag) if and only if encoding (body, tag) gives that buffer |
| `Frame.DecodeRejects` | src/main/java/srsc/srtsp/SRTSP.java:244-252 | decoding fails on a buffer shorter than the header, a version other than 3, a wrong message type, a negative declared length, or fewer bytes than the declared length |
| `Frame.TrailingBytes` | src/main/java/srsc/srtsp/SRTSP.java:317-318 | bytes after the declared body all become the tag; the body is unaffected |
| `Messages.SealLayout` | src/main/java/srsc/srtsp/SRTSP.java:278-295 | `Seal` (the tail of `encodeMessage2..4`) gives header, ciphertext, then `Tag`, the HMAC of the echoed nonce; its length field counts the ciphertext only; it is produced exactly when the frame fits |
| `Messages.SealOpen` | src/main/java/srsc/srtsp/SRTSP.java:320-332 | a frame `Seal` made with echo `n + 1` is opened by `Open` under `myLastNounce == n` to the original plaintext |
| `Messages.RoundTrip1` | src/main/java/srsc/srtsp/SRTSP.java:224-269 | if the signature verifies and the ticket unseals and reads as `tc`, `DecodeMessage1` of what `EncodeMessage1` wrote gives back `(tc, n1)` |
| `Messages.RoundTrip2` | src/main/java/srsc/srtsp/SRTSP.java:271-338 | `DecodeMessage2` with `n` of what `EncodeMessage2` wrote with echo `n + 1` under the same keys gives back `(n + 1, n2, confirmation)` |
| `Messages.RoundTrip3` | src/main/java/srsc/srtsp/SRTSP.java:340-406 | `DecodeMessage3` with `n` of what `EncodeMessage3` wrote with echo `n + 1` under the same keys gives back `(n + 1, n3)` |
| `Messages.RoundTrip4` | src/main/java/srsc/srtsp/SRTSP.java:408-475 | `DecodeMessage4` with `n` of what `EncodeMessage4` wrote with echo `n + 1` under the same keys gives back `(n + 1, frame)` |
| `Messages.DecodeMessage1Checks` | src/main/java/srsc/srtsp/SRTSP.java:253-268 | a message 1 that `DecodeMessage1` accepts passed every check in order: the request read, the signature over the sealed ticket verified, then the ticket unsealed and read; its `n1` is the request's |
| `Messages.BadSignatureRejected` | src/main/java/srsc/srtsp/SRTSP.java:256-260 | a request whose signature fails is rejected, whatever unsealing would give |
| `Messages.Message1IgnoresTrailing` | src/main/java/srsc/srtsp/SRTSP.java:250-253 | message 1 decodes the same with or without trailing bytes after its payload |
| `Messages.OpenChecksTag` | src/main/java/srsc/srtsp/SRTSP.java:388-400 | `Open` (the head of `decodeMessage2..4`) accepts a message only if its tag equals `Tag` of `myLastNounce + 1`, and then yields the decryption of the declared body; a wrong tag rejects it before decryption |
| `Messages.TagIgnoresCiphertext` | src/main/java/srsc/srtsp/SRTSP.java:457-469 | any ciphertext, tampered or not, followed by the HMAC of the expected echo passes the integrity check and reaches decryption: the tag does not bind the body |
| `Nonces.Admit` | src/main/java/srsc/srtsp/SRTSP.java:487-492 | admission succeeds exactly when the nonce is new, and the ledger afterwards is the old one plus that nonce |
| `Nonces.AdmitTwiceFails` | src/main/java/srsc/srtsp/SRTSP.java:488-491 | admitting the same nonce a second time always fails |
| `Nonces.FirstFresh` | src/main/java/srsc/srtsp/SRTSP.java:478-485 | the draw the retry loop settles on: the first one, from the starting position, whose wrapped successor is outside the ledger |
| `Nonces.SupplyAfterAdmit` | src/main/java/srsc/srtsp/SRTSP.java:125-127 | after the ticket's `n4` is admitted, the random source can still serve `newNounce` |
| `Nonces.SupplyAfterFirst` | src/main/java/srsc/srtsp/SRTSP.java:206-208 | after `n1 + 1` is admitted, the random source can still serve the second `newNounce`, drawing on from where the first stopped |
| `Handshake.ResponderOutcome` | src/main/java/srsc/srtsp/SRTSP.java:121-147 | `Respond` returns a ticket if and only if message 1 decodes (signature, then unseal), `n4` is new, message 2 fits, message 3 passes its tag check and echoes `n2 + 1`, and message 4 fits; admitting `n2 + 1` never fails; message 4 is written only when all of that holds; the ledger never loses a nonce |
| `Handshake.RespondReachesAdmitted` | src/main/java/srsc/srtsp/SRTSP.java:121-127 | a message 1 that decodes to a ticket with a new `n4` leads to the ledger with `n4` admitted and to an `n2` whose successor is outside it |
| `Handshake.AdmittedOutcome` | src/main/java/srsc/srtsp/SRTSP.java:127-143 | after `n4` is admitted and `n2` drawn: the ticket is returned exactly when message 2 fits, message 3 passes and message 4 fits; nothing is written when message 2 overflows, only message 2 when a later check fails; the ledger gains `n2 + 1` exactly when message 3 passed |
| `Handshake.ResponderSuccess` | src/main/java/srsc/srtsp/SRTSP.java:121-147 | when its checks pass, `Respond` wrote message 2 (`n1 + 1`, `true`) and message 4 (`n3 + 1`, the `InitMark` frame), returns the unsealed ticket, and its ledger grew by exactly `{n4, n2 + 1}`, two new elements |
| `Handshake.BadSignatureAborts` | src/main/java/srsc/srtsp/SRTSP.java:121-125 | a bad message-1 signature aborts the responder with nothing written and the ledger unchanged |
| `Handshake.ReplayedTicketRejected` | src/main/java/srsc/srtsp/SRTSP.java:121-125 | any message 1 whose ticket's `n4` is already in the ledger is rejected, whatever its `n1`: nothing is written and the ledger is unchanged |
| `Handshake.TicketStaysAdmitted` | src/main/java/srsc/srtsp/SRTSP.java:125 | after any run on a message 1 that decodes, its ticket's `n4` is in the ledger, however the run ended; with the replay lemma a ticket is accepted at most once |
| `Handshake.InitiatorOutcome` | src/main/java/srsc/srtsp/SRTSP.java:195-219 | `Initiate` completes if and only if message 1 fits, message 2 echoes `n1 + 1` with confirmation `true`, message 3 fits and message 4 echoes `n3 + 1`, each under its tag; admissions of the echoes never fail; message 3 is written only after message 2 passed; the ledger never loses a nonce |
| `Handshake.ConfirmedOutcome` | src/main/java/srsc/srtsp/SRTSP.java:209-218 | after message 2 passed and `n3` is drawn: completion exactly when message 3 fits and message 4 passes; message 3 follows message 1 unless it overflows; the ledger gains `n3 + 1` exactly on completion |
| `Handshake.InitiateReachesConfirmed` | src/main/java/srsc/srtsp/SRTSP.java:195-209 | after message 2 passed, `n1 + 1` is new and the second `newNounce` draws on from where the first stopped, against the ledger with `n1 + 1` admitted |
| `Handshake.InitiatorEarlyExits` | src/main/java/srsc/srtsp/SRTSP.java:195-204 | a message 1 that overflows is never written, and a message 2 that fails its tag, echo or confirmation ends the run after message 1; either way the ledger is unchanged |
| `Handshake.InitiatorSuccess` | src/main/java/srsc/srtsp/SRTSP.java:195-219 | when its checks pass, `Initiate` wrote message 1 (`n1`) and message 3 (`n2 + 1`, `n3`) and its ledger grew by exactly `{n1 + 1, n3 + 1}`, two new elements |
| `Handshake.WrongEchoAborts` | src/main/java/srsc/srtsp/SRTSP.java:203-204 | a message 2 echoing anything but `n1 + 1` aborts the initiator before message 3, with the ledger unchanged |
| `Handshake.HonestHandshake` | src/main/java/srsc/srtsp/SRTSP.java:121-219 | end to end (responder 121-147, initiator 195-219): with a ticket signed and sealed for the responder and no frame overflow, both sides fed each other's lines complete; the responder returns the issued ticket, and each ledger grows by its two admissions |
| `Srtsp.SRTSP.constructor` | src/main/java/srsc/srtsp/SRTSP.java:81 | a new object starts with an empty ledger |
| `Srtsp.SRTSP.NewNounce` | src/main/java/srsc/srtsp/SRTSP.java:478-485 | returns a draw whose wrapped successor is not in `nounces`, namely the first such draw, rejecting every earlier one; the ledger is only read |
| `Srtsp.SRTSP.AddSeenNounce` | src/main/java/srsc/srtsp/SRTSP.java:487-492 | succeeds exactly when the nonce is new; the ledger becomes old plus the nonce, or stays unchanged when it fails |
| `Srtsp.SRTSP.StartReceiveTicket` | src/main/java/srsc/srtsp/SRTSP.java:121-147 | the lines written, the returned ticket and the new ledger are those of `Handshake.Respond` on the old ledger |
| `Srtsp.SRTSP.RequestMovie` | src/main/java/srsc/srtsp/SRTSP.java:195-219 | the lines written, the completion and the new ledger are those of `Handshake.Initiate` on the old ledger |
| `Srtsp.SRTSP.SendAckAwaitSync` | src/main/java/srsc/srtsp/SRTSP.java:209-218 | the second `newNounce`, message 3, message 4 and the last admission: lines, completion and new ledger are those of `Handshake.InitiateConfirmed` from the current ledger |

## Left out

- TLS context, key and trust managers, socket creation, the authentication-mode switch, and
  `getClientAddress` (SRTSP.java:84-116, 150-191). These are network I/O. Lines are parameters
  and results of the handshake methods.
- The constructor's key-store and configuration loading and the BouncyCastle registration
  (SRTSP.java:67-80). These are file I/O and global provider state. The issuer's public key and
  the responder's private key are constructor parameters.
- The internals of ECDSA, ECIES, AES-CTR, HMAC-SHA512 and Gson, and the `Utils` conversions
  (`toHex`, `hexStringToByteArray`, `toByteArray`, `toString`). These are foreign libraries, and
  `Utils` is not part of this model. They are uninterpreted functions with only the `Sound()` facts.
- `Messages.Seal`: encryption is a total function, so a cipher that throws at `init`, for example
  on a key of the wrong length, is not modelled on the sending side.
- Constant-time comparison of tags (`MessageDigest.isEqual`). Only equality is modelled.
- `System.out.println` logging. It is side-effect only.
- Distinct failure kinds. The source throws a bare `Exception`, so every failure is one outcome.
  A body that fails to decrypt or deserialise after the tag check is that same outcome.
- `Srtsp.SRTSP.NewNounce`: `SecureRandom` is a finite oracle sequence of draws that must contain a
  draw with a fresh successor. The Java loop has no such bound. It ends only with probability 1.
- `Srtsp.SRTSP.StartReceiveTicket`, `Srtsp.SRTSP.RequestMovie`: these require the oracle to hold
  two draws with different values and fresh successors (`Nonces.FreshSupply`). That is enough for
  every `newNounce` call of one handshake.
- The handshake methods take all incoming lines up front, so the model does not capture blocking
  reads or the interleaving of reads and writes. The lines written before a failure are still
  recorded.
- `clientSocket.close()` at the end of `requestMovie`. This is transport teardown.
- `srsc/sadkdp/jsonEntities/TicketCredentials.java`. It is a bean of the ticket-issuance protocol.
  The ticket the responder unseals is `Entities.TicketCredentials`, whose source class is not part
  of this model; it keeps only the getters the handshake calls (session keys and `n4`).
- `Test.java`. It is a `main` that reads a key store and prints.
- Hardening the design would call for distinct error kinds, read timeouts and a tag over the whole
  ciphertext. The code has none of these, and the model follows the code.
