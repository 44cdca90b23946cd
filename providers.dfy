/** The foreign libraries the protocol calls, as uninterpreted functions handed to the model.
    Only the facts the protocol relies on are assumed about them, through `Sound()`. */
module Providers {
  import opened Wrappers
  import opened JavaInt
  import opened Entities

  datatype Providers = Providers(
    /** `Signature("SHA512withECDSA")`: (public key, data, signature) to `verify`'s answer. */
    verify: (Bytes, Bytes, Bytes) -> bool,
    /** `Cipher("ECIES")` in decrypt mode: (private key, sealed blob); `None` when `doFinal` throws. */
    unseal: (Bytes, Bytes) -> Option<Bytes>,
    /** `Cipher("AES/CTR/PKCS5Padding")` in encrypt mode: (key, IV, plaintext). */
    encrypt: (Bytes, Bytes, Bytes) -> Bytes,
    /** The same cipher in decrypt mode: (key, IV, ciphertext); `None` when `doFinal` throws. */
    decrypt: (Bytes, Bytes, Bytes) -> Option<Bytes>,
    /** `Mac("HmacSHA512")`: (key, data) to the tag. Deterministic, as every function is. */
    hmac: (Bytes, Bytes) -> Bytes,
    /** `Utils.toByteArray(int)`, the bytes the HMAC is computed over. */
    intBytes: Int32 -> Bytes,
    /** `Utils.toByteArray(String)`. */
    stringBytes: string -> Bytes,
    /** `Utils.toByteArray(gson.toJson(x))` and `gson.fromJson(Utils.toString(b), ..)` for each body;
        a read is `None` when Gson throws or yields `null`. */
    showRequest: RequestAndCredentialsSend -> Bytes,
    readRequest: Bytes -> Option<RequestAndCredentialsSend>,
    showVerification: Verification -> Bytes,
    readVerification: Bytes -> Option<Verification>,
    showAck: AckVerification -> Bytes,
    readAck: Bytes -> Option<AckVerification>,
    showSync: SyncInitialFrame -> Bytes,
    readSync: Bytes -> Option<SyncInitialFrame>,
    readTicket: Bytes -> Option<TicketCredentials>,
    /** `Utils.toHex` and `Utils.hexStringToByteArray`: each frame travels as one hex line. */
    toHex: Bytes -> string,
    fromHex: string -> Bytes)
  {
    /** The only properties of the libraries the protocol depends on: decryption inverts encryption
        under the same key and IV, every body reads back as written, and hex decoding inverts hex
        encoding. */
    ghost predicate Sound() {
      && (forall key, iv, plain :: decrypt(key, iv, encrypt(key, iv, plain)) == Some(plain))
      && (forall m :: readRequest(showRequest(m)) == Some(m))
      && (forall m :: readVerification(showVerification(m)) == Some(m))
      && (forall m :: readAck(showAck(m)) == Some(m))
      && (forall m :: readSync(showSync(m)) == Some(m))
      && (forall b :: fromHex(toHex(b)) == b)
    }
  }
}
