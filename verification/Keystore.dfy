/** The crypto service, in process and behind its confined `keystore-service`. Cryptography is a
    parameter: all that is assumed of it is `Lawful`. */
module Keystore {
  import opened Prelude
  import opened Wire

  /** The primitives, keyed by a secret: sealing yields ciphertext and tag, opening may refuse. */
  datatype Primitives = Primitives(
    seal: (nat, seq<byte>, seq<byte>, seq<byte>) -> (seq<byte>, seq<byte>),
    unseal: (nat, seq<byte>, seq<byte>, seq<byte>, seq<byte>) -> Option<seq<byte>>,
    sign: (nat, seq<byte>) -> seq<byte>)

  /** Lengths as the typed primitives fix them, and opening what was sealed gives it back. */
  ghost predicate Lawful(p: Primitives) {
    && (forall k, n, a, m :: var (c, t) := p.seal(k, n, a, m);
          |c| == |m| && |t| == TAG_LEN && p.unseal(k, n, a, c, t) == Some(m))
    && (forall k, n, a, c, t :: p.unseal(k, n, a, c, t).Some? ==> |p.unseal(k, n, a, c, t).value| == |c|)
    && (forall k, m :: |p.sign(k, m)| == SIGNATURE_LEN)
  }

  datatype Purpose = ForAead | ForSigning

  datatype KeyOp = ENCRYPT | DECRYPT | SIGN

  datatype KeyRecord = KeyRecord(purpose: Purpose, secret: nat, destroyed: bool)

  datatype KeyGrant = KeyGrant(key: nat, ops: set<KeyOp>, revoked: bool)

  datatype Keystore = Keystore(primitives: Primitives, keys: map<nat, KeyRecord>, grants: map<nat, KeyGrant>)

  datatype ChannelError = Malformed | Transport

  datatype KeystoreError =
    | UnknownBadge | BadgeRevoked | OpNotGranted | WrongKey | NoSuchKey | KeyDestroyed
    | WrongPurpose | CryptoFailure
    | RemoteDenied(status: nat)
    | Channel(error: ChannelError)

  datatype KeyCall =
    | Encrypt(nonce: seq<byte>, aad: seq<byte>, plaintext: seq<byte>)
    | Decrypt(nonce: seq<byte>, aad: seq<byte>, ciphertext: seq<byte>, tag: seq<byte>)
    | Sign(message: seq<byte>)

  datatype KeyReply =
    | Encrypted(ciphertext: seq<byte>, tag: seq<byte>)
    | Decrypted(plaintext: seq<byte>)
    | Signed(signature: seq<byte>)

  function OpOf(call: KeyCall): KeyOp {
    match call
    case Encrypt(_, _, _) => ENCRYPT
    case Decrypt(_, _, _, _) => DECRYPT
    case Sign(_) => SIGN
  }

  /** The deny-by-default check, then the key lookup; the secret on success. */
  function Authorize(ks: Keystore, badge: nat, key: nat, op: KeyOp): Result<nat, KeystoreError> {
    if badge !in ks.grants then Err(UnknownBadge)
    else if ks.grants[badge].revoked then Err(BadgeRevoked)
    else if ks.grants[badge].key != key then Err(WrongKey)
    else if op !in ks.grants[badge].ops then Err(OpNotGranted)
    else if key !in ks.keys then Err(NoSuchKey)
    else if ks.keys[key].destroyed then Err(KeyDestroyed)
    else if (ks.keys[key].purpose == ForSigning) != (op == SIGN) then Err(WrongPurpose)
    else Ok(ks.keys[key].secret)
  }

  /** One call on the in-process keystore. */
  function Serve(ks: Keystore, badge: nat, key: nat, call: KeyCall): Result<KeyReply, KeystoreError> {
    match Authorize(ks, badge, key, OpOf(call))
    case Err(e) => Err(e)
    case Ok(secret) =>
      match call
      case Encrypt(nonce, aad, plaintext) =>
        var (ciphertext, tag) := ks.primitives.seal(secret, nonce, aad, plaintext);
        Ok(Encrypted(ciphertext, tag))
      case Decrypt(nonce, aad, ciphertext, tag) =>
        (match ks.primitives.unseal(secret, nonce, aad, ciphertext, tag)
         case None => Err(CryptoFailure)
         case Some(plaintext) => Ok(Decrypted(plaintext)))
      case Sign(message) => Ok(Signed(ks.primitives.sign(secret, message)))
  }

  function Revoke(ks: Keystore, badge: nat): Keystore {
    if badge in ks.grants then ks.(grants := ks.grants[badge := ks.grants[badge].(revoked := true)]) else ks
  }

  // ----- Error codes -----

  datatype ErrorCode = Access | Invalid

  const STATUS_OK: nat := 0
  const STATUS_ACCESS: nat := 1
  const STATUS_INVALID: nat := 2

  predicate IsDenial(e: KeystoreError) {
    e in {UnknownBadge, BadgeRevoked, OpNotGranted, WrongKey, NoSuchKey, KeyDestroyed}
  }

  /** `to_error_code`: what a guest is told of a service error. */
  function ToErrorCode(e: KeystoreError): ErrorCode {
    match e
    case UnknownBadge | BadgeRevoked | OpNotGranted | WrongKey | NoSuchKey | KeyDestroyed => Access
    case RemoteDenied(status) => if status == STATUS_ACCESS then Access else Invalid
    case _ => Invalid
  }

  /** How `keystore-service` collapses its keystore's error onto a wire status. */
  function StatusOf(e: KeystoreError): nat {
    if IsDenial(e) then STATUS_ACCESS else STATUS_INVALID
  }

  /** A denial reads the same whichever side of the wire decided it. */
  lemma CollapseCommutes(e: KeystoreError)
    requires !e.RemoteDenied? && !e.Channel?
    ensures ToErrorCode(RemoteDenied(StatusOf(e))) == ToErrorCode(e)
    ensures ToErrorCode(e) == Access <==> IsDenial(e)
  {
  }

  function GuestView(r: Result<KeyReply, KeystoreError>): Result<KeyReply, ErrorCode> {
    match r
    case Ok(reply) => Ok(reply)
    case Err(e) => Err(ToErrorCode(e))
  }

  // ----- The confined service -----

  datatype WireOp = OP_ENCRYPT | OP_DECRYPT | OP_SIGN

  /** What one channel call comes back with: no transport, or a status and payload. */
  datatype Answer = NoAnswer | Answered(status: nat, payload: seq<byte>)

  function DecodeCall(op: WireOp, request: seq<byte>): Option<KeyCall> {
    match op
    case OP_ENCRYPT =>
      (match DecodeEncrypt(request)
       case None => None
       case Some(r) => Some(Encrypt(r.nonce, r.aad, r.plaintext)))
    case OP_DECRYPT =>
      (match DecodeDecrypt(request)
       case None => None
       case Some(r) => Some(Decrypt(r.nonce, r.aad, r.ciphertext, r.tag)))
    case OP_SIGN => Some(Sign(request))
  }

  function ReplyBytes(reply: KeyReply): seq<byte>
    requires reply.Encrypted? ==> |reply.tag| == TAG_LEN
  {
    match reply
    case Encrypted(ciphertext, tag) => EncryptReplyBytes(tag, ciphertext)
    case Decrypted(plaintext) => plaintext
    case Signed(signature) => signature
  }

  /** The key a badge was minted for; the service looks it up itself. */
  function KeyOf(ks: Keystore, badge: nat): nat {
    if badge in ks.grants then ks.grants[badge].key else 0
  }

  /** `keystore-service` answering one request that arrived under the kernel-delivered `badge`. */
  function ServiceAnswer(ks: Keystore, badge: nat, op: WireOp, request: seq<byte>): Answer {
    match DecodeCall(op, request)
    case None => Answered(STATUS_INVALID, [])
    case Some(call) =>
      match Serve(ks, badge, KeyOf(ks, badge), call)
      case Err(e) => Answered(StatusOf(e), [])
      case Ok(reply) =>
        if reply.Encrypted? && |reply.tag| != TAG_LEN then NoAnswer else Answered(STATUS_OK, ReplyBytes(reply))
  }
}
