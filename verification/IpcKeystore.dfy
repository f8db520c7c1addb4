/** The runtime's `IpcKeystore`: a keystore reached over one channel, and its agreement with the
    in-process keystore. */
module IpcKeystore {
  import opened Prelude
  import opened Wire
  import opened Keystore
  import K = Keystore

  /** What `IpcKeystore` does with a call, as a function of what the channel answers. `Panicked` is
      the request encoder's `expect`. */
  datatype Outcome = Returned(result: Result<KeyReply, KeystoreError>) | Panicked

  function OpCodeOf(call: KeyCall): WireOp {
    match call
    case Encrypt(_, _, _) => OP_ENCRYPT
    case Decrypt(_, _, _, _) => OP_DECRYPT
    case Sign(_) => OP_SIGN
  }

  /** The trait's own argument types: fixed-length nonces and tags. */
  predicate Typed(call: KeyCall) {
    match call
    case Encrypt(nonce, _, _) => |nonce| == NONCE_LEN
    case Decrypt(nonce, _, _, tag) => |nonce| == NONCE_LEN && |tag| == TAG_LEN
    case Sign(_) => true
  }

  predicate Encodable(call: KeyCall) {
    Typed(call) && (!call.Sign? ==> |call.aad| < PREFIX_LIMIT)
  }

  function RequestBytes(call: KeyCall): seq<byte>
    requires Encodable(call)
  {
    match call
    case Encrypt(nonce, aad, plaintext) => EncryptBytes(EncryptRequest(nonce, aad, plaintext))
    case Decrypt(nonce, aad, ciphertext, tag) => DecryptBytes(DecryptRequest(nonce, aad, tag, ciphertext))
    case Sign(message) => message
  }

  /** The size the caller gives its request and reply buffers. */
  function RequestCapacity(call: KeyCall): nat {
    match call
    case Encrypt(_, aad, plaintext) => 4 + NONCE_LEN + 4 + |aad| + |plaintext|
    case Decrypt(_, aad, ciphertext, _) => 4 + NONCE_LEN + 4 + |aad| + 4 + TAG_LEN + |ciphertext|
    case Sign(message) => |message|
  }

  function ReplyCapacity(call: KeyCall): nat {
    match call
    case Encrypt(_, _, plaintext) => 4 + TAG_LEN + |plaintext|
    case Decrypt(_, _, ciphertext, _) => |ciphertext|
    case Sign(_) => SIGNATURE_LEN
  }

  function ReadReply(call: KeyCall, payload: seq<byte>): Result<KeyReply, KeystoreError> {
    match call
    case Encrypt(_, _, plaintext) =>
      (match DecodeEncryptReply(payload)
       case None => Err(Channel(Malformed))
       case Some((tag, ciphertext)) =>
         if |ciphertext| != |plaintext| then Err(Channel(Malformed)) else Ok(Encrypted(ciphertext, tag)))
    case Decrypt(_, _, ciphertext, _) =>
      if |payload| != |ciphertext| then Err(Channel(Malformed)) else Ok(Decrypted(payload))
    case Sign(_) => Ok(Signed(payload))
  }

  /** What `Channel::call` returns into a reply buffer of `capacity` bytes. */
  function Delivered(answer: Answer, capacity: nat): Result<(nat, seq<byte>), KeystoreError> {
    match answer
    case NoAnswer => Err(Channel(Transport))
    case Answered(status, payload) => if |payload| > capacity then Err(Channel(Malformed)) else Ok((status, payload))
  }

  function Remote(answer: (WireOp, seq<byte>) -> Answer, call: KeyCall): Outcome {
    if !Encodable(call) then Panicked else
    match Delivered(answer(OpCodeOf(call), RequestBytes(call)), ReplyCapacity(call))
    case Err(e) => Returned(Err(e))
    case Ok((status, payload)) =>
      if status != STATUS_OK then Returned(Err(RemoteDenied(status))) else Returned(ReadReply(call, payload))
  }

  function ChannelTo(ks: Keystore, badge: nat): (WireOp, seq<byte>) -> Answer {
    (op, request) => ServiceAnswer(ks, badge, op, request)
  }

  // ----- Agreement -----

  /** The buffer the caller sized holds the request exactly, so its encoder's `expect` fires exactly
      for an aad too long for its four-byte length prefix. */
  lemma ExpectUnreachableIff(answer: (WireOp, seq<byte>) -> Answer, call: KeyCall)
    requires Typed(call)
    ensures Remote(answer, call) == Panicked <==> !call.Sign? && |call.aad| >= PREFIX_LIMIT
    ensures Encodable(call) ==> |RequestBytes(call)| == RequestCapacity(call)
  {
  }

  lemma RequestRoundTrip(call: KeyCall)
    requires Encodable(call)
    ensures DecodeCall(OpCodeOf(call), RequestBytes(call)) == Some(call)
  {
    match call
    case Encrypt(nonce, aad, plaintext) =>
      EncryptWireExact(EncryptRequest(nonce, aad, plaintext), RequestBytes(call));
    case Decrypt(nonce, aad, ciphertext, tag) =>
      DecryptWireExact(DecryptRequest(nonce, aad, tag, ciphertext), RequestBytes(call));
    case Sign(_) =>
  }

  /** A badge that is revoked, or was never granted, is refused every well-formed call. */
  lemma DeadCallIsDenied(ks: Keystore, badge: nat, call: KeyCall)
    requires Encodable(call) && (badge in ks.grants ==> ks.grants[badge].revoked)
    ensures ServiceAnswer(ks, badge, OpCodeOf(call), RequestBytes(call)) == Answered(STATUS_ACCESS, [])
  {
    hide Encodable, RequestBytes, DecodeCall;
    RequestRoundTrip(call);
  }

  lemma DeadCallReadsDenied(ks: Keystore, badge: nat, call: KeyCall)
    requires Encodable(call) && (badge in ks.grants ==> ks.grants[badge].revoked)
    ensures Remote(ChannelTo(ks, badge), call) == Returned(Err(RemoteDenied(STATUS_ACCESS)))
  {
    hide Encodable, RequestBytes, ServiceAnswer;
    DeadCallIsDenied(ks, badge, call);
  }

  lemma ReplyRoundTrip(ks: Keystore, badge: nat, key: nat, call: KeyCall)
    requires Lawful(ks.primitives) && Serve(ks, badge, key, call).Ok?
    ensures var reply := Serve(ks, badge, key, call).value;
            && (reply.Encrypted? ==> |reply.tag| == TAG_LEN)
            && |ReplyBytes(reply)| <= ReplyCapacity(call)
            && ReadReply(call, ReplyBytes(reply)) == Ok(reply)
  {
    var reply := Serve(ks, badge, key, call).value;
    if reply.Encrypted? {
      EncryptReplyExact(reply.tag, reply.ciphertext, ReplyBytes(reply));
    }
  }

  /** The grant behind `badge`, if there is one, is for `key`. */
  predicate Bound(ks: Keystore, badge: nat, key: nat) {
    badge in ks.grants ==> ks.grants[badge].key == key
  }

  /** One call over the channel and one call in process look the same to the guest: the same reply,
      denials `access`, primitive failures `invalid`. */
  lemma RemoteRefinesLocal(ks: Keystore, badge: nat, key: nat, call: KeyCall)
    requires Lawful(ks.primitives) && Bound(ks, badge, key) && Encodable(call)
    ensures Remote(ChannelTo(ks, badge), call).Returned?
    ensures GuestView(Remote(ChannelTo(ks, badge), call).result) == GuestView(Serve(ks, badge, key, call))
  {
    hide Serve, Encodable, RequestBytes, DecodeCall, ReplyBytes, ReadReply, ReplyCapacity, ToErrorCode, Lawful;
    RequestRoundTrip(call);
    BoundServesAlike(ks, badge, key, call);
    match Serve(ks, badge, key, call)
    case Ok(_) => ReplyRoundTrip(ks, badge, key, call);
    case Err(e) => CollapseCommutes(e);
  }

  /** The key looked up for a badge is the one its handle names, and what is refused in process is a denial or
      a failure of the primitives. */
  lemma BoundServesAlike(ks: Keystore, badge: nat, key: nat, call: KeyCall)
    requires Bound(ks, badge, key)
    ensures var r := Serve(ks, badge, key, call);
            && Serve(ks, badge, KeyOf(ks, badge), call) == r
            && (r.Err? ==> !r.error.RemoteDenied? && !r.error.Channel? && StatusOf(r.error) != STATUS_OK)
  {
  }

  /** The keystore's records let `badge` do `op` on `key`: a live grant of that op on that key, and the
      key still there. */
  predicate Permits(ks: Keystore, badge: nat, key: nat, op: KeyOp) {
    && badge in ks.grants && !ks.grants[badge].revoked && ks.grants[badge].key == key && op in ks.grants[badge].ops
    && key in ks.keys && !ks.keys[key].destroyed
  }

  /** The key is of the kind the operation needs. */
  predicate Suits(ks: Keystore, key: nat, op: KeyOp)
    requires key in ks.keys
  {
    ks.keys[key].purpose == if op == SIGN then ForSigning else ForAead
  }

  /** The primitive behind `op` gives the same results under both secrets, on every input a call can carry. */
  ghost predicate Indistinct(p: Primitives, op: KeyOp, s: nat, s': nat) {
    match op
    case ENCRYPT =>
      forall n, a, m :: Encodable(Encrypt(n, a, m)) ==> p.seal(s, n, a, m) == p.seal(s', n, a, m)
    case DECRYPT =>
      forall n, a, c, t :: Encodable(Decrypt(n, a, c, t)) ==> p.unseal(s, n, a, c, t) == p.unseal(s', n, a, c, t)
    case SIGN => forall m :: p.sign(s, m) == p.sign(s', m)
  }

  /** What the records must say of `op` under two badges for nobody to tell which one was used. */
  ghost predicate SameUnder(ks: Keystore, badge: nat, key: nat, badge': nat, key': nat, op: KeyOp) {
    && (Permits(ks, badge, key, op) <==> Permits(ks, badge', key', op))
    && (Permits(ks, badge, key, op) ==>
          && (Suits(ks, key, op) <==> Suits(ks, key', op))
          && (Suits(ks, key, op) ==> Indistinct(ks.primitives, op, ks.keys[key].secret, ks.keys[key'].secret)))
  }

  /** Calls that need `op` end alike in process under (badge, key) and under (badge', key'). */
  ghost predicate AlikeInProcess(ks: Keystore, badge: nat, key: nat, badge': nat, key': nat, op: KeyOp) {
    forall call :: Encodable(call) && OpOf(call) == op ==>
                     GuestView(Serve(ks, badge, key, call)) == GuestView(Serve(ks, badge', key', call))
  }

  lemma AuthorizeByRecords(ks: Keystore, badge: nat, key: nat, op: KeyOp)
    ensures match Authorize(ks, badge, key, op)
            case Ok(secret) => Permits(ks, badge, key, op) && Suits(ks, key, op) && secret == ks.keys[key].secret
            case Err(e) => if Permits(ks, badge, key, op) then e == WrongPurpose && !Suits(ks, key, op) else IsDenial(e)
  {
  }

  /** A typed call that succeeds under `secret`, whatever the op. */
  lemma Succeeds(p: Primitives, op: KeyOp, secret: nat) returns (call: KeyCall)
    requires Lawful(p)
    ensures Encodable(call) && OpOf(call) == op
    ensures call.Decrypt? ==> p.unseal(secret, call.nonce, call.aad, call.ciphertext, call.tag).Some?
  {
    var nonce := seq<byte>(NONCE_LEN, i => 0);
    match op
    case ENCRYPT => call := Encrypt(nonce, [], []);
    case SIGN => call := Sign([]);
    case DECRYPT =>
      var (c, t) := p.seal(secret, nonce, [], []);
      call := Decrypt(nonce, [], c, t);
  }

  lemma SameUnderMeansAlike(ks: Keystore, badge: nat, key: nat, badge': nat, key': nat, op: KeyOp)
    requires SameUnder(ks, badge, key, badge', key', op)
    ensures AlikeInProcess(ks, badge, key, badge', key', op)
  {
    hide Authorize, Permits, Suits;
    AuthorizeByRecords(ks, badge, key, op);
    AuthorizeByRecords(ks, badge', key', op);
  }

  /** What the guest is told of one call, by how it is authorised. */
  lemma ViewOf(ks: Keystore, badge: nat, key: nat, call: KeyCall)
    ensures match Authorize(ks, badge, key, OpOf(call))
            case Err(e) => GuestView(Serve(ks, badge, key, call)) == Err(if IsDenial(e) then Access else Invalid)
            case Ok(s) =>
              GuestView(Serve(ks, badge, key, call)) ==
              match call
              case Encrypt(n, a, m) => Ok(Encrypted(ks.primitives.seal(s, n, a, m).0, ks.primitives.seal(s, n, a, m).1))
              case Decrypt(n, a, c, t) =>
                if ks.primitives.unseal(s, n, a, c, t).None? then Err(Invalid)
                else Ok(Decrypted(ks.primitives.unseal(s, n, a, c, t).value))
              case Sign(m) => Ok(Signed(ks.primitives.sign(s, m)))
  {
    AuthorizeByRecords(ks, badge, key, OpOf(call));
  }

  lemma AlikeMeansIndistinct(ks: Keystore, badge: nat, key: nat, badge': nat, key': nat, op: KeyOp)
    requires AlikeInProcess(ks, badge, key, badge', key', op)
    requires Authorize(ks, badge, key, op).Ok? && Authorize(ks, badge', key', op).Ok?
    ensures Indistinct(ks.primitives, op, Authorize(ks, badge, key, op).value, Authorize(ks, badge', key', op).value)
  {
    hide Authorize, Serve, GuestView;
    forall call | Encodable(call) && OpOf(call) == op
      ensures GuestView(Serve(ks, badge, key, call)) == GuestView(Serve(ks, badge', key', call))
    {
    }
    var p, s, s' := ks.primitives, Authorize(ks, badge, key, op).value, Authorize(ks, badge', key', op).value;
    match op
    case ENCRYPT =>
      forall n, a, m | Encodable(Encrypt(n, a, m)) ensures p.seal(s, n, a, m) == p.seal(s', n, a, m) {
        ViewOf(ks, badge, key, Encrypt(n, a, m));
        ViewOf(ks, badge', key', Encrypt(n, a, m));
      }
    case DECRYPT =>
      forall n, a, c, t | Encodable(Decrypt(n, a, c, t)) ensures p.unseal(s, n, a, c, t) == p.unseal(s', n, a, c, t) {
        ViewOf(ks, badge, key, Decrypt(n, a, c, t));
        ViewOf(ks, badge', key', Decrypt(n, a, c, t));
      }
    case SIGN =>
      forall m ensures p.sign(s, m) == p.sign(s', m) {
        ViewOf(ks, badge, key, Sign(m));
        ViewOf(ks, badge', key', Sign(m));
      }
  }

  /** Two badges that end every call alike are authorised alike. */
  lemma AlikeMeansAuthorizedAlike(ks: Keystore, badge: nat, key: nat, badge': nat, key': nat, op: KeyOp)
    requires Lawful(ks.primitives) && AlikeInProcess(ks, badge, key, badge', key', op)
    ensures match (Authorize(ks, badge, key, op), Authorize(ks, badge', key', op))
            case (Ok(_), Ok(_)) => true
            case (Err(e), Err(e')) => IsDenial(e) == IsDenial(e')
            case _ => false
  {
    hide Authorize, Serve, GuestView, Lawful;
    var a, a' := Authorize(ks, badge, key, op), Authorize(ks, badge', key', op);
    var call := Succeeds(ks.primitives, op, if a.Ok? then a.value else if a'.Ok? then a'.value else 0);
    ViewOf(ks, badge, key, call);
    ViewOf(ks, badge', key', call);
  }

  lemma AlikeMeansSameUnder(ks: Keystore, badge: nat, key: nat, badge': nat, key': nat, op: KeyOp)
    requires Lawful(ks.primitives) && AlikeInProcess(ks, badge, key, badge', key', op)
    ensures SameUnder(ks, badge, key, badge', key', op)
  {
    hide Authorize, Permits, Suits, Indistinct, AlikeInProcess, Lawful;
    AuthorizeByRecords(ks, badge, key, op);
    AuthorizeByRecords(ks, badge', key', op);
    AlikeMeansAuthorizedAlike(ks, badge, key, badge', key', op);
    if Authorize(ks, badge, key, op).Ok? {
      AlikeMeansIndistinct(ks, badge, key, badge', key', op);
    }
  }

  /** A channel of badge `c` ignores the badge and key of the handle, `b` and `k`. Over all calls that need
      `op` the two paths agree exactly when the records let `b` do `op` on `k` just as they let `c` on
      its own key, and the two secrets, if both are used, cannot be told apart. */
  lemma AgreementIff(ks: Keystore, c: nat, b: nat, k: nat, op: KeyOp)
    requires Lawful(ks.primitives)
    ensures (forall call :: Encodable(call) && OpOf(call) == op ==>
               GuestView(Remote(ChannelTo(ks, c), call).result) == GuestView(Serve(ks, b, k, call)))
            <==> SameUnder(ks, c, KeyOf(ks, c), b, k, op)
  {
    forall call | Encodable(call)
      ensures Remote(ChannelTo(ks, c), call).Returned?
      ensures GuestView(Remote(ChannelTo(ks, c), call).result) == GuestView(Serve(ks, c, KeyOf(ks, c), call))
    {
      RemoteRefinesLocal(ks, c, KeyOf(ks, c), call);
    }
    hide Remote, Lawful, SameUnder, Serve, GuestView;
    if SameUnder(ks, c, KeyOf(ks, c), b, k, op) {
      SameUnderMeansAlike(ks, c, KeyOf(ks, c), b, k, op);
    }
    if AlikeInProcess(ks, c, KeyOf(ks, c), b, k, op) {
      AlikeMeansSameUnder(ks, c, KeyOf(ks, c), b, k, op);
    }
  }

  /** A handle that carries the channel's own badge agrees with the channel on `op` exactly when it names
      the badge's own key, or the records do not let the badge do `op` at all. */
  lemma SameBadgeAgreementIff(ks: Keystore, badge: nat, key: nat, op: KeyOp)
    requires Lawful(ks.primitives)
    ensures (forall call :: Encodable(call) && OpOf(call) == op ==>
               GuestView(Remote(ChannelTo(ks, badge), call).result) == GuestView(Serve(ks, badge, key, call)))
            <==> key == KeyOf(ks, badge) || !Permits(ks, badge, KeyOf(ks, badge), op)
  {
    AgreementIff(ks, badge, badge, key, op);
  }

  /** Whatever answers the channel: a transport failure reaches the guest as `invalid`, and so does a payload
      of the wrong length, except that `sign` checks no length and lets a payload shorter than a
      signature through. */
  lemma BadRepliesReadInvalid(answer: (WireOp, seq<byte>) -> Answer, call: KeyCall)
    requires Encodable(call)
    ensures var a, view := answer(OpCodeOf(call), RequestBytes(call)), GuestView(Remote(answer, call).result);
            && (a.NoAnswer? ==> view == Err(Invalid))
            && (a.Answered? && a.status == STATUS_OK && |a.payload| != ReplyCapacity(call) ==>
                  (view == Err(Invalid) <==> !call.Sign? || |a.payload| > 64))
  {
    var a := answer(OpCodeOf(call), RequestBytes(call));
    if a.Answered? && call.Encrypt? && DecodeEncryptReply(a.payload).Some? {
      var (tag, ciphertext) := DecodeEncryptReply(a.payload).value;
      EncryptReplyExact(tag, ciphertext, a.payload);
    }
  }

  /** Whatever answers the channel, a guest reads `access` exactly when a reply that fits says so, with status
      1; any other status but success, and anything that is no such reply, reads `invalid`. */
  lemma AccessIffDenied(answer: (WireOp, seq<byte>) -> Answer, call: KeyCall)
    requires Encodable(call)
    ensures var a, view := answer(OpCodeOf(call), RequestBytes(call)), GuestView(Remote(answer, call).result);
            && (view == Err(Access) <==> a.Answered? && a.status == 1 && |a.payload| <= ReplyCapacity(call))
            && (a.Answered? && a.status > 1 ==> view == Err(Invalid))
            && (view.Ok? ==> a.Answered? && a.status == 0)
  {
  }

  /** What a guest takes for a signature: exactly the payload of any successful answer no longer than one. */
  lemma SignatureIsWhateverCame(answer: (WireOp, seq<byte>) -> Answer, message: seq<byte>, signature: seq<byte>)
    ensures GuestView(Remote(answer, Sign(message)).result) == Ok(Signed(signature)) <==>
            answer(OP_SIGN, message) == Answered(0, signature) && |signature| <= 64
  {
    assert RequestBytes(Sign(message)) == message;
  }

  /** A service that answers `sign` with success and no bytes gives the guest an empty signature, which the
      in-process keystore never does. */
  lemma EmptySignatureGetsThrough(message: seq<byte>) returns (answer: (WireOp, seq<byte>) -> Answer)
    ensures GuestView(Remote(answer, Sign(message)).result) == Ok(Signed([]))
    ensures forall ks: Keystore, badge, key ::
              Lawful(ks.primitives) ==> Serve(ks, badge, key, Sign(message)) != Ok(Signed([]))
  {
    answer := (op, request) => Answered(STATUS_OK, []);
    SignatureIsWhateverCame(answer, message, []);
  }

  // ----- In place -----

  class Channel {
    var answer: (WireOp, seq<byte>) -> Answer

    constructor (answer: (WireOp, seq<byte>) -> Answer)
      ensures this.answer == answer
    {
      this.answer := answer;
    }

    /** Sends a request and waits; on success the payload is at the front of `reply`. */
    method Call(op: WireOp, request: seq<byte>, reply: array<byte>) returns (r: Result<(nat, nat), KeystoreError>)
      modifies reply
      ensures match Delivered(answer(op, request), reply.Length)
              case Err(e) => r == Err(e)
              case Ok((status, payload)) =>
                r == Ok((status, |payload|)) && |payload| <= reply.Length && reply[..|payload|] == payload
    {
      match Delivered(answer(op, request), reply.Length)
      case Err(e) => r := Err(e);
      case Ok((status, payload)) =>
        var len := Put(reply, 0, payload);
        r := Ok((status, len));
    }
  }

  /** The far side of a channel: `keystore-service`, which knows its client by `badge` alone. */
  class KeystorePeer {
    const badge: nat
    const channel: Channel
    var ks: Keystore

    ghost predicate Valid()
      reads this, channel
    {
      channel.answer == ChannelTo(ks, badge)
    }

    constructor (ks: Keystore, badge: nat)
      ensures Valid() && this.ks == ks && this.badge == badge && fresh(channel)
    {
      this.ks, this.badge := ks, badge;
      channel := new Channel((op, request) => ServiceAnswer(ks, badge, op, request));
      new;
      channel.answer := ChannelTo(ks, badge);
    }

    /** The service revokes a badge; from then on its channel answers from the new records. */
    method Revoke(revoked: nat)
      requires Valid()
      modifies this, channel
      ensures Valid() && ks == K.Revoke(old(ks), revoked)
    {
      ks := K.Revoke(ks, revoked);
      channel.answer := ChannelTo(ks, badge);
    }
  }

  datatype InPlace<T> = Done(result: Result<T, KeystoreError>) | Aborted

  class IpcKeystore {
    const channel: Channel

    constructor (channel: Channel)
      ensures this.channel == channel
    {
      this.channel := channel;
    }

    /** Encrypts `buffer` in place and returns the tag. The handle's badge and key are accepted and
        ignored, as in the source. On any error, a reply of the wrong length included, the buffer
        keeps its bytes. */
    method Encrypt(badge: nat, key: nat, nonce: seq<byte>, aad: seq<byte>, buffer: array<byte>)
      returns (r: InPlace<seq<byte>>)
      requires |nonce| == NONCE_LEN
      modifies buffer
      ensures match Remote(channel.answer, KeyCall.Encrypt(nonce, aad, old(buffer[..])))
              case Panicked => r == Aborted && buffer[..] == old(buffer[..])
              case Returned(Err(e)) => r == Done(Err(e)) && buffer[..] == old(buffer[..])
              case Returned(Ok(reply)) =>
                reply.Encrypted? && r == Done(Ok(reply.tag)) && buffer[..] == reply.ciphertext
    {
      ghost var call := KeyCall.Encrypt(nonce, aad, buffer[..]);
      ExpectUnreachableIff(channel.answer, call);
      var request := new byte[4 + NONCE_LEN + 4 + |aad| + buffer.Length];
      var encoded := EncodeEncrypt(EncryptRequest(nonce, aad, buffer[..]), request);
      if encoded.None? {
        return Aborted;
      }
      assert request[..encoded.value] == RequestBytes(call);
      var reply := new byte[4 + TAG_LEN + buffer.Length];
      var answered := channel.Call(OP_ENCRYPT, request[..encoded.value], reply);
      if answered.Err? {
        return Done(Err(answered.error));
      }
      var (status, replyLen) := answered.value;
      if status != STATUS_OK {
        return Done(Err(RemoteDenied(status)));
      }
      var decoded := DecodeEncryptReply(reply[..replyLen]);
      if decoded.None? || |decoded.value.1| != buffer.Length {
        return Done(Err(KeystoreError.Channel(Malformed)));
      }
      var _ := Put(buffer, 0, decoded.value.1);
      r := Done(Ok(decoded.value.0));
      assert buffer[..] == buffer[..buffer.Length];
    }

    method Decrypt(badge: nat, key: nat, nonce: seq<byte>, aad: seq<byte>, buffer: array<byte>, tag: seq<byte>)
      returns (r: InPlace<()>)
      requires |nonce| == NONCE_LEN && |tag| == TAG_LEN
      modifies buffer
      ensures match Remote(channel.answer, KeyCall.Decrypt(nonce, aad, old(buffer[..]), tag))
              case Panicked => r == Aborted && buffer[..] == old(buffer[..])
              case Returned(Err(e)) => r == Done(Err(e)) && buffer[..] == old(buffer[..])
              case Returned(Ok(reply)) => reply.Decrypted? && r == Done(Ok(())) && buffer[..] == reply.plaintext
    {
      ghost var call := KeyCall.Decrypt(nonce, aad, buffer[..], tag);
      ExpectUnreachableIff(channel.answer, call);
      var request := new byte[4 + NONCE_LEN + 4 + |aad| + 4 + TAG_LEN + buffer.Length];
      var encoded := EncodeDecrypt(DecryptRequest(nonce, aad, tag, buffer[..]), request);
      if encoded.None? {
        return Aborted;
      }
      assert request[..encoded.value] == RequestBytes(call);
      var reply := new byte[buffer.Length];
      var answered := channel.Call(OP_DECRYPT, request[..encoded.value], reply);
      if answered.Err? {
        return Done(Err(answered.error));
      }
      var (status, replyLen) := answered.value;
      if status != STATUS_OK {
        return Done(Err(RemoteDenied(status)));
      }
      if replyLen != buffer.Length {
        return Done(Err(KeystoreError.Channel(Malformed)));
      }
      var _ := Put(buffer, 0, reply[..replyLen]);
      r := Done(Ok(()));
      assert buffer[..] == buffer[..buffer.Length];
    }

    method Sign(badge: nat, key: nat, message: seq<byte>) returns (r: Result<seq<byte>, KeystoreError>)
      ensures match Remote(channel.answer, KeyCall.Sign(message)).result
              case Err(e) => r == Err(e)
              case Ok(reply) => reply.Signed? && r == Ok(reply.signature)
    {
      var reply := new byte[SIGNATURE_LEN];
      var answered := channel.Call(OP_SIGN, message, reply);
      if answered.Err? {
        return Err(answered.error);
      }
      var (status, replyLen) := answered.value;
      if status != STATUS_OK {
        return Err(RemoteDenied(status));
      }
      r := Ok(reply[..replyLen]);
    }
  }
}
