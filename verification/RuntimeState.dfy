/** The host object a guest calls into: a resource table, the manifest's slots, and whichever services
    were attached. Each method takes exactly the step `Host.Step` describes. */
module RuntimeState {
  import opened Prelude
  import opened Host
  import K = Keystore
  import I = IpcKeystore
  import S = Store
  import F = IpcFilesystem
  import T = ResourceTable
  import Wire

  /** The in-process keystore. */
  class InProcessKeystore {
    var ks: K.Keystore

    constructor (ks: K.Keystore)
      ensures this.ks == ks
    {
      this.ks := ks;
    }

    method Revoke(badge: nat)
      modifies this
      ensures ks == K.Revoke(old(ks), badge)
    {
      ks := K.Revoke(ks, badge);
    }
  }

  /** The attached keystore: the object itself, or a channel and what is on its far side, which only a
      revocation ever touches. */
  datatype KeystoreService =
    | Direct(direct: InProcessKeystore)
    | OverIpc(ipc: I.IpcKeystore, peer: I.KeystorePeer)

  ghost function KeyObjects(service: Option<KeystoreService>): set<object> {
    match service
    case None => {}
    case Some(Direct(direct)) => {direct}
    case Some(OverIpc(ipc, peer)) => {peer, peer.channel}
  }

  ghost function FileObjects(service: Option<FilesystemService>): set<object> {
    match service
    case None => {}
    case Some(InProcess(local)) => {local}
    case Some(OverChannel(remote)) => {remote}
  }

  datatype FilesystemService = InProcess(local: F.InProcessFilesystem) | OverChannel(remote: F.IpcFilesystem)

  /** A keystore method's answer; `Trapped` when the encoder's `expect` fires. */
  datatype Answer = Replied(result: Result<K.KeyReply, K.ErrorCode>) | Trapped

  function AsReply(a: Answer): Reply {
    match a
    case Replied(r) => KeyResult(r)
    case Trapped => Trap
  }

  /** The in-process keystore's own in-place encryption and decryption. */
  method DirectInPlace(ks: K.Keystore, badge: nat, key: nat, call: K.KeyCall, buffer: array<byte>)
    returns (r: Result<seq<byte>, K.KeystoreError>)
    requires K.Lawful(ks.primitives) && !call.Sign?
    requires buffer[..] == if call.Encrypt? then call.plaintext else call.ciphertext
    modifies buffer
    ensures match K.Serve(ks, badge, key, call)
            case Err(e) => r == Err(e) && buffer[..] == old(buffer[..])
            case Ok(Encrypted(ciphertext, tag)) => r == Ok(tag) && buffer[..] == ciphertext
            case Ok(Decrypted(plaintext)) => r == Ok([]) && buffer[..] == plaintext
            case Ok(Signed(_)) => false
  {
    match K.Serve(ks, badge, key, call)
    case Err(e) => r := Err(e);
    case Ok(reply) =>
      var bytes := if reply.Encrypted? then reply.ciphertext else if reply.Decrypted? then reply.plaintext else [];
      assert |bytes| == |old(buffer[..])|;
      var end := Wire.Put(buffer, 0, bytes);
      assert buffer[..] == buffer[..end];
      r := Ok(if reply.Encrypted? then reply.tag else []);
  }

  ghost predicate KeyServiceIs(service: Option<KeystoreService>, backend: KeyBackend)
    reads KeyObjects(service)
  {
    match (service, backend)
    case (None, NoKeystore) => true
    case (Some(Direct(direct)), LocalKeystore(ks)) => direct.ks == ks && K.Lawful(ks.primitives)
    case (Some(OverIpc(ipc, peer)), RemoteKeystore(ks, badge)) =>
      ipc.channel == peer.channel && peer.ks == ks && peer.badge == badge && peer.Valid()
    case _ => false
  }

  ghost predicate FileServiceIs(service: Option<FilesystemService>, backend: FileBackend)
    reads FileObjects(service)
  {
    match (service, backend)
    case (None, NoFilesystem) => true
    case (Some(InProcess(local)), LocalFilesystem(st)) => local.store == st && S.Sound(st)
    case (Some(OverChannel(remote)), RemoteFilesystem(st, badge)) => remote.peer == st && remote.badge == badge
    case _ => false
  }

  lemma ObjectsApart(k: Option<KeystoreService>, f: Option<FilesystemService>)
    ensures KeyObjects(k) !! FileObjects(f)
  {
  }

  function AnswerOf(o: I.Outcome): Answer {
    match o
    case Panicked => Trapped
    case Returned(r) => Replied(K.GuestView(r))
  }

  // ----- Calls on whichever service is attached -----

  method EncryptVia(service: KeystoreService, ghost b: KeyBackend, cap: HostCapability, nonce: seq<byte>,
                    aad: seq<byte>, plaintext: seq<byte>)
    returns (a: Answer)
    requires KeyServiceIs(Some(service), b) && |nonce| == Wire.NONCE_LEN
    ensures a == AnswerOf(CallKeystore(b, cap, K.Encrypt(nonce, aad, plaintext)))
  {
    hide I.Remote;
    var buffer := new byte[|plaintext|](i requires 0 <= i < |plaintext| => plaintext[i]);
    assert buffer[..] == plaintext;
    match service
    case Direct(direct) =>
      var r := DirectInPlace(direct.ks, cap.badge, cap.key, K.Encrypt(nonce, aad, plaintext), buffer);
      a := Replied(match r case Err(e) => Err(K.ToErrorCode(e)) case Ok(tag) => Ok(K.Encrypted(buffer[..], tag)));
    case OverIpc(ipc, _) =>
      var r := ipc.Encrypt(cap.badge, cap.key, nonce, aad, buffer);
      a := match r
           case Aborted => Trapped
           case Done(Err(e)) => Replied(Err(K.ToErrorCode(e)))
           case Done(Ok(tag)) => Replied(Ok(K.Encrypted(buffer[..], tag)));
  }

  method DecryptVia(service: KeystoreService, ghost b: KeyBackend, cap: HostCapability, nonce: seq<byte>,
                    aad: seq<byte>, ciphertext: seq<byte>, tag: seq<byte>)
    returns (a: Answer)
    requires KeyServiceIs(Some(service), b) && |nonce| == Wire.NONCE_LEN && |tag| == Wire.TAG_LEN
    ensures a == AnswerOf(CallKeystore(b, cap, K.Decrypt(nonce, aad, ciphertext, tag)))
  {
    hide I.Remote;
    var buffer := new byte[|ciphertext|](i requires 0 <= i < |ciphertext| => ciphertext[i]);
    assert buffer[..] == ciphertext;
    match service
    case Direct(direct) =>
      var r := DirectInPlace(direct.ks, cap.badge, cap.key, K.Decrypt(nonce, aad, ciphertext, tag), buffer);
      a := Replied(match r case Err(e) => Err(K.ToErrorCode(e)) case Ok(_) => Ok(K.Decrypted(buffer[..])));
    case OverIpc(ipc, _) =>
      var r := ipc.Decrypt(cap.badge, cap.key, nonce, aad, buffer, tag);
      a := match r
           case Aborted => Trapped
           case Done(Err(e)) => Replied(Err(K.ToErrorCode(e)))
           case Done(Ok(_)) => Replied(Ok(K.Decrypted(buffer[..])));
  }

  method SignVia(service: KeystoreService, ghost b: KeyBackend, cap: HostCapability, message: seq<byte>)
    returns (a: Answer)
    requires KeyServiceIs(Some(service), b)
    ensures a == AnswerOf(CallKeystore(b, cap, K.Sign(message)))
  {
    match service
    case Direct(direct) =>
      a := Replied(K.GuestView(K.Serve(direct.ks, cap.badge, cap.key, K.Sign(message))));
    case OverIpc(ipc, _) =>
      var r := ipc.Sign(cap.badge, cap.key, message);
      a := Replied(match r case Err(e) => Err(K.ToErrorCode(e)) case Ok(signature) => Ok(K.Signed(signature)));
  }

  method ReadVia(service: FilesystemService, ghost b: FileBackend, f: HostFile)
    returns (r: Result<seq<byte>, K.ErrorCode>)
    requires FileServiceIs(Some(service), b)
    modifies FileObjects(Some(service))
    ensures FileServiceIs(Some(service), b) && r == S.GuestRead(ReadFile(b, f))
  {
    var buffer := new byte[S.MAX_BLOCK_LEN];
    var n: Result<nat, S.StoreError>;
    match service {
      case InProcess(local) => n := local.Read(f.badge, f.file, buffer);
      case OverChannel(remote) => n := remote.Read(f.badge, f.file, buffer);
    }
    match n
    case Ok(len) => r := Ok(buffer[..len]);
    case Err(FileEmpty) => r := Ok([]);
    case Err(e) => r := Err(S.ToErrorCode(e));
  }

  method WriteVia(service: FilesystemService, ghost b: FileBackend, f: HostFile, bytes: seq<byte>)
    returns (r: Result<(), K.ErrorCode>)
    requires FileServiceIs(Some(service), b)
    modifies FileObjects(Some(service))
    ensures FileServiceIs(Some(service), WriteFile(b, f, bytes).0) && r == S.GuestWrite(WriteFile(b, f, bytes).1)
  {
    var result: Result<(), S.StoreError>;
    match service {
      case InProcess(local) =>
        S.WriteIsContent(local.store, f.badge, f.file, bytes);
        result := local.Write(f.badge, f.file, bytes);
      case OverChannel(remote) =>
        result := remote.Write(f.badge, f.file, bytes);
    }
    r := S.GuestWrite(result);
  }

  method RevokeKeyVia(service: KeystoreService, ghost b: KeyBackend, badge: nat)
    requires KeyServiceIs(Some(service), b)
    modifies KeyObjects(Some(service))
    ensures KeyServiceIs(Some(service), RevokeKeyAt(b, badge))
  {
    match service
    case Direct(direct) => direct.Revoke(badge);
    case OverIpc(_, peer) => peer.Revoke(badge);
  }

  method RevokeFileVia(service: FilesystemService, ghost b: FileBackend, badge: nat)
    requires FileServiceIs(Some(service), b)
    modifies FileObjects(Some(service))
    ensures FileServiceIs(Some(service), RevokeFileAt(b, badge))
  {
    match service
    case InProcess(local) =>
      RevokeKeepsSound(local.store, badge);
      local.Revoke(badge);
    case OverChannel(remote) => remote.RevokeAtPeer(badge);
  }

  lemma RevokeKeepsSound(st: S.Store, badge: nat)
    requires S.Sound(st)
    ensures S.Sound(S.Revoke(st, badge))
  {
    assert forall f :: S.Content(S.Revoke(st, badge), f) == S.Content(st, f);
  }

  class RuntimeState {
    const table: T.Table<Entry>
    const keys: seq<Option<HostCapability>>
    const files: seq<Option<HostFile>>
    const keystore: Option<KeystoreService>
    const filesystem: Option<FilesystemService>
    const clock: Option<MonotonicClock>
    ghost var host: HostState  // the abstract host this object stands for

    ghost function Footprint(): set<object> {
      {this, table} + KeyObjects(keystore) + FileObjects(filesystem)
    }

    ghost predicate Valid()
      reads Footprint()
    {
      && table.Valid()
      && host.table == table.View()
      && host.keys == keys && host.files == files && host.clock == clock
      && KeyServiceIs(keystore, host.keystore)
      && FileServiceIs(filesystem, host.filesystem)
    }

    /** `RuntimeState::new` and the `with_*` calls: `kb` and `fb` are the services attached. */
    constructor (m: GrantManifest, limit: nat, keystore: Option<KeystoreService>, filesystem: Option<FilesystemService>,
                 ghost kb: KeyBackend, ghost fb: FileBackend)
      requires KeyServiceIs(keystore, kb) && FileServiceIs(filesystem, fb)
      ensures Valid() && host == New(m, kb, fb)
      ensures this.keystore == keystore && this.filesystem == filesystem && fresh(table) && table.limit == limit
    {
      table := new T.Table(limit);
      keys, files, clock := m.keystoreKeys, m.filesystemFiles, m.monotonicClock;
      this.keystore, this.filesystem := keystore, filesystem;
      host := New(m, kb, fb);
    }

    /** `keystore.open`: a handle for a filled slot the table has room for, else `none`. */
    method OpenKey(slot: nat) returns (rep: Option<nat>)
      requires Valid()
      modifies this, table
      ensures Valid() && (host, Opened(rep)) == Step(old(host), KeyOpen(slot, rep))
      ensures rep.Some? <==> Slot(keys, slot).Some? && exists i: nat :: i < table.limit && i !in old(host).table
    {
      hide KeyMethod, FileReadMethod, FileWriteMethod, RevokeKeyAt, RevokeFileAt, K.Lawful, S.Sound, I.ChannelTo;
      rep := None;
      if slot < |keys| && keys[slot].Some? {
        rep := table.Push(KeyEntry(keys[slot].value));
        host := Step(host, KeyOpen(slot, rep)).0;
      }
    }

    method OpenFile(slot: nat) returns (rep: Option<nat>)
      requires Valid()
      modifies this, table
      ensures Valid() && (host, Opened(rep)) == Step(old(host), FileOpen(slot, rep))
      ensures rep.Some? <==> Slot(files, slot).Some? && exists i: nat :: i < table.limit && i !in old(host).table
      ensures rep.Some? ==> rep.value < table.limit
    {
      hide KeyMethod, FileReadMethod, FileWriteMethod, RevokeKeyAt, RevokeFileAt, K.Lawful, S.Sound, I.ChannelTo;
      rep := None;
      if slot < |files| && files[slot].Some? {
        rep := table.Push(FileEntry(files[slot].value));
        host := Step(host, FileOpen(slot, rep)).0;
      }
    }

    method KeystoreCap(rep: nat) returns (cap: Option<HostCapability>)
      requires Valid()
      ensures cap == KeyCap(host, rep)
    {
      var e := table.Get(rep);
      cap := if e.Some? && e.value.KeyEntry? then Some(e.value.cap) else None;
    }

    method FileHandle(rep: nat) returns (f: Option<HostFile>)
      requires Valid()
      ensures f == FileCap(host, rep)
    {
      var e := table.Get(rep);
      f := if e.Some? && e.value.FileEntry? then Some(e.value.handle) else None;
    }

    /** Deletes a live record. */
    method Remove(rep: nat)
      requires Valid() && rep in host.table
      modifies this, table
      ensures Valid() && host == old(host).(table := old(host).table - {rep})
    {
      hide K.Lawful, S.Sound, I.ChannelTo;
      var _ := table.Delete(rep);
      host := host.(table := host.table - {rep});
    }

    method DropKey(rep: nat) returns (ok: bool)
      requires Valid()
      modifies this, table
      ensures Valid() && (host, Dropped(ok)) == Step(old(host), KeyDrop(rep))
    {
      hide KeyMethod, FileReadMethod, FileWriteMethod, RevokeKeyAt, RevokeFileAt, K.Lawful, S.Sound, I.ChannelTo;
      var cap := KeystoreCap(rep);
      ok := cap.Some?;
      if ok {
        Remove(rep);
      }
    }

    method DropFile(rep: nat) returns (ok: bool)
      requires Valid()
      modifies this, table
      ensures Valid() && (host, Dropped(ok)) == Step(old(host), FileDrop(rep))
    {
      hide KeyMethod, FileReadMethod, FileWriteMethod, RevokeKeyAt, RevokeFileAt, K.Lawful, S.Sound, I.ChannelTo;
      var f := FileHandle(rep);
      ok := f.Some?;
      if ok {
        Remove(rep);
      }
    }

    method Encrypt(rep: nat, nonce: seq<byte>, aad: seq<byte>, plaintext: seq<byte>) returns (a: Answer)
      requires Valid()
      modifies this
      ensures Valid() && (host, AsReply(a)) == Step(old(host), Method(rep, K.Encrypt(nonce, aad, plaintext)))
    {
      hide CallKeystore, FileReadMethod, FileWriteMethod, RevokeKeyAt, RevokeFileAt, K.Lawful, S.Sound, I.ChannelTo;
      hide ActualCap, K.GuestView, Push;
      var cap := KeystoreCap(rep);
      if cap.None? || cap.value.service != KeystoreService {
        return Replied(Err(K.Access));
      }
      if |nonce| != Wire.NONCE_LEN {
        return Replied(Err(K.Invalid));
      }
      Attached();
      if keystore.None? {
        return Replied(Err(K.Access));
      }
      a := EncryptVia(keystore.value, host.keystore, cap.value, nonce, aad, plaintext);
      host := Step(host, Method(rep, K.Encrypt(nonce, aad, plaintext))).0;
    }

    method Decrypt(rep: nat, nonce: seq<byte>, aad: seq<byte>, ciphertext: seq<byte>, tag: seq<byte>)
      returns (a: Answer)
      requires Valid()
      modifies this
      ensures Valid() && (host, AsReply(a)) == Step(old(host), Method(rep, K.Decrypt(nonce, aad, ciphertext, tag)))
    {
      hide CallKeystore, FileReadMethod, FileWriteMethod, RevokeKeyAt, RevokeFileAt, K.Lawful, S.Sound, I.ChannelTo;
      hide ActualCap, K.GuestView, Push;
      var cap := KeystoreCap(rep);
      if cap.None? || cap.value.service != KeystoreService {
        return Replied(Err(K.Access));
      }
      if |nonce| != Wire.NONCE_LEN || |tag| != Wire.TAG_LEN {
        return Replied(Err(K.Invalid));
      }
      Attached();
      if keystore.None? {
        return Replied(Err(K.Access));
      }
      a := DecryptVia(keystore.value, host.keystore, cap.value, nonce, aad, ciphertext, tag);
      host := Step(host, Method(rep, K.Decrypt(nonce, aad, ciphertext, tag))).0;
    }

    method Sign(rep: nat, message: seq<byte>) returns (a: Answer)
      requires Valid()
      modifies this
      ensures Valid() && (host, AsReply(a)) == Step(old(host), Method(rep, K.Sign(message)))
    {
      hide CallKeystore, FileReadMethod, FileWriteMethod, RevokeKeyAt, RevokeFileAt, K.Lawful, S.Sound, I.ChannelTo;
      hide ActualCap, K.GuestView, Push;
      var cap := KeystoreCap(rep);
      Attached();
      if cap.None? || cap.value.service != KeystoreService || keystore.None? {
        return Replied(Err(K.Access));
      }
      a := SignVia(keystore.value, host.keystore, cap.value, message);
      host := Step(host, Method(rep, K.Sign(message))).0;
    }

    /** The abstract host has exactly the services this object has. */
    lemma Attached()
      requires Valid()
      ensures keystore.None? <==> host.keystore.NoKeystore?
      ensures filesystem.None? <==> host.filesystem.NoFilesystem?
      ensures KeyObjects(keystore) !! FileObjects(filesystem)
      ensures {this, table} !! KeyObjects(keystore) && {this, table} !! FileObjects(filesystem)
    {
      ObjectsApart(keystore, filesystem);
    }

    method ReadFile(rep: nat) returns (r: Result<seq<byte>, K.ErrorCode>)
      requires Valid()
      modifies this, FileObjects(filesystem)
      ensures Valid() && (host, ReadResult(r)) == Step(old(host), FileRead(rep))
    {
      hide Host.ReadFile, KeyMethod, FileWriteMethod, RevokeKeyAt, RevokeFileAt, K.Lawful, S.Sound, I.ChannelTo;
      hide ActualFile, S.GuestRead, Push;
      var f := FileHandle(rep);
      Attached();
      if f.None? || f.value.service != FilesystemService || filesystem.None? {
        return Err(K.Access);
      }
      r := ReadVia(filesystem.value, host.filesystem, f.value);
      host := Step(host, FileRead(rep)).0;
    }

    method WriteFile(rep: nat, bytes: seq<byte>) returns (r: Result<(), K.ErrorCode>)
      requires Valid()
      modifies this, FileObjects(filesystem)
      ensures Valid() && (host, WriteResult(r)) == Step(old(host), FileWrite(rep, bytes))
    {
      hide Host.WriteFile, KeyMethod, FileReadMethod, RevokeKeyAt, RevokeFileAt, K.Lawful, S.Sound, I.ChannelTo;
      hide ActualFile, S.GuestWrite, Push;
      var f := FileHandle(rep);
      Attached();
      if f.None? || f.value.service != FilesystemService {
        return Err(K.Access);
      }
      if |bytes| > S.MAX_BLOCK_LEN {
        return Err(K.Invalid);
      }
      if filesystem.None? {
        return Err(K.Access);
      }
      r := WriteVia(filesystem.value, host.filesystem, f.value, bytes);
      host := Step(host, FileWrite(rep, bytes)).0;
    }

    /** A revocation at the attached keystore, wherever it runs. */
    method RevokeKey(badge: nat)
      requires Valid()
      modifies this, KeyObjects(keystore)
      ensures Valid() && host == Step(old(host), Event.RevokeKey(badge)).0
    {
      hide KeyMethod, FileReadMethod, FileWriteMethod, K.Lawful, S.Sound, I.ChannelTo;
      Attached();
      if keystore.Some? {
        RevokeKeyVia(keystore.value, host.keystore, badge);
      }
      host := Step(host, Event.RevokeKey(badge)).0;
    }

    /** A revocation at the attached filesystem, wherever it runs. */
    method RevokeFile(badge: nat)
      requires Valid()
      modifies this, FileObjects(filesystem)
      ensures Valid() && host == Step(old(host), Event.RevokeFile(badge)).0
    {
      hide KeyMethod, FileReadMethod, FileWriteMethod, K.Lawful, S.Sound, I.ChannelTo;
      Attached();
      if filesystem.Some? {
        RevokeFileVia(filesystem.value, host.filesystem, badge);
      }
      host := Step(host, Event.RevokeFile(badge)).0;
    }
  }
}
