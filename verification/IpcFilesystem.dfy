/** The two filesystem backends as objects: the in-process store, and a channel to `store-service`. */
module IpcFilesystem {
  import opened Prelude
  import opened Store
  import S = Store
  import K = Keystore
  import Wire

  /** `InProcessFilesystem`: the store's own result, its bytes copied into the caller's buffer. */
  class InProcessFilesystem {
    var store: Store

    constructor (store: Store)
      ensures this.store == store
    {
      this.store := store;
    }

    method Read(badge: nat, file: nat, buffer: array<byte>) returns (r: Result<nat, StoreError>)
      requires Sound(store) && buffer.Length == MAX_BLOCK_LEN
      modifies buffer
      ensures match ReadBlock(store, badge, file)
              case Err(e) => r == Err(e)
              case Ok(bytes) => r == Ok(|bytes|) && |bytes| <= buffer.Length && buffer[..|bytes|] == bytes
    {
      match ReadBlock(store, badge, file)
      case Err(e) => r := Err(e);
      case Ok(bytes) =>
        BlockFits(store, badge, file);
        var len := Wire.Put(buffer, 0, bytes);
        r := Ok(len);
    }

    method Revoke(badge: nat)
      modifies this
      ensures store == S.Revoke(old(store), badge)
    {
      store := S.Revoke(store, badge);
    }

    method Write(badge: nat, file: nat, data: seq<byte>) returns (r: Result<(), StoreError>)
      modifies this
      ensures (store, r) == WriteBlock(old(store), badge, file, data)
    {
      var (after, result) := WriteBlock(store, badge, file, data);
      store := after;
      r := result;
    }
  }

  lemma BlockFits(st: Store, badge: nat, file: nat)
    requires Sound(st) && ReadBlock(st, badge, file).Ok?
    ensures |ReadBlock(st, badge, file).value| <= MAX_BLOCK_LEN
  {
    assert ReadBlock(st, badge, file).value == Content(st, file);
  }

  /** `IpcFilesystem`: the peer holds the store and knows the caller by its channel's badge alone. */
  class IpcFilesystem {
    const badge: nat
    var peer: Store

    constructor (badge: nat, peer: Store)
      ensures this.badge == badge && this.peer == peer
    {
      this.badge := badge;
      this.peer := peer;
    }

    /** The far side revokes a badge. */
    method RevokeAtPeer(revoked: nat)
      modifies this
      ensures peer == S.Revoke(old(peer), revoked)
    {
      peer := S.Revoke(peer, revoked);
    }

    /** One request and its reply; the payload goes to the front of `reply` if it fits. */
    method Call(op: WireOp, request: seq<byte>, reply: array<byte>) returns (r: Result<(nat, nat), StoreError>)
      modifies this, reply
      ensures peer == Serve(old(peer), badge, op, request).0
      ensures match Serve(old(peer), badge, op, request).1
              case NoAnswer => r == Err(Channel(K.Transport))
              case Answered(status, payload) =>
                if |payload| > reply.Length then r == Err(Channel(K.Malformed))
                else r == Ok((status, |payload|)) && reply[..|payload|] == payload
    {
      var (after, answer) := Serve(peer, badge, op, request);
      peer := after;
      match answer
      case NoAnswer => r := Err(Channel(K.Transport));
      case Answered(status, payload) =>
        if |payload| > reply.Length {
          r := Err(Channel(K.Malformed));
        } else {
          var len := Wire.Put(reply, 0, payload);
          r := Ok((status, len));
        }
    }

    method Read(badge: nat, file: nat, buffer: array<byte>) returns (r: Result<nat, StoreError>)
      requires buffer.Length == MAX_BLOCK_LEN
      modifies this, buffer
      ensures peer == Serve(old(peer), this.badge, OP_READ, []).0
      ensures match ReadAnswer(Serve(old(peer), this.badge, OP_READ, []).1)
              case Err(e) => r == Err(e)
              case Ok(bytes) => r == Ok(|bytes|) && |bytes| <= buffer.Length && buffer[..|bytes|] == bytes
    {
      var answered := Call(OP_READ, [], buffer);
      match answered
      case Err(e) => r := Err(e);
      case Ok((status, len)) =>
        r := if status != K.STATUS_OK then Err(RemoteCryptoDenied(status)) else Ok(len);
    }

    method Write(badge: nat, file: nat, data: seq<byte>) returns (r: Result<(), StoreError>)
      modifies this
      ensures peer == Serve(old(peer), this.badge, OP_WRITE, data).0
      ensures r == WriteAnswer(Serve(old(peer), this.badge, OP_WRITE, data).1)
    {
      var nothing := new byte[0];
      var answered := Call(OP_WRITE, data, nothing);
      match answered
      case Err(e) => r := Err(e);
      case Ok((status, _)) =>
        r := if status != K.STATUS_OK then Err(RemoteCryptoDenied(status)) else Ok(());
    }
  }
}
