/** Every reply a guest gets, told from the history of its calls, the manifest and the services' records at
    the start; no state of the host is looked at. */
module CallHistory {
  import opened Prelude
  import opened Host
  import opened HandleHistory
  import HR = HostRuns
  import FA = FileAnswers
  import K = Keystore
  import I = IpcKeystore
  import S = Store

  // ----- Key calls -----

  /** What serving a key handle comes to when no key badge was revoked but those in `revoked`: the records
      decide whether `op` may be done, the key's purpose whether it can be. */
  ghost predicate MayDo(kb: KeyBackend, cap: HostCapability, op: K.KeyOp, events: seq<Event>) {
    && KeystoreOf(kb).Some?
    && I.Permits(KeystoreOf(kb).value, ActualCap(kb, cap).badge, ActualCap(kb, cap).key, op)
    && RevokeKey(ActualCap(kb, cap).badge) !in events
  }

  /** The secret `op` runs under, or what the guest is told instead. */
  ghost function SecretFor(kb: KeyBackend, cap: HostCapability, op: K.KeyOp, events: seq<Event>)
    : Result<nat, K.ErrorCode>
  {
    if !MayDo(kb, cap, op, events) then Err(K.Access)
    else
      var record := KeystoreOf(kb).value.keys[ActualCap(kb, cap).key];
      if record.purpose != (if op == K.SIGN then K.ForSigning else K.ForAead) then Err(K.Invalid)
      else Ok(record.secret)
  }

  ghost function KeyAnswer(kb: KeyBackend, cap: HostCapability, call: K.KeyCall, events: seq<Event>)
    : Result<K.KeyReply, K.ErrorCode>
  {
    match call
    case Encrypt(nonce, aad, plaintext) =>
      if |nonce| != 24 then Err(K.Invalid) else
      (match SecretFor(kb, cap, K.ENCRYPT, events)
       case Err(e) => Err(e)
       case Ok(secret) =>
         var (c, t) := KeystoreOf(kb).value.primitives.seal(secret, nonce, aad, plaintext);
         Ok(K.Encrypted(c, t)))
    case Decrypt(nonce, aad, ciphertext, tag) =>
      if |nonce| != 24 || |tag| != 16 then Err(K.Invalid) else
      (match SecretFor(kb, cap, K.DECRYPT, events)
       case Err(e) => Err(e)
       case Ok(secret) =>
         match KeystoreOf(kb).value.primitives.unseal(secret, nonce, aad, ciphertext, tag)
         case None => Err(K.Invalid)
         case Some(plaintext) => Ok(K.Decrypted(plaintext)))
    case Sign(message) =>
      (match SecretFor(kb, cap, K.SIGN, events)
       case Err(e) => Err(e)
       case Ok(secret) => Ok(K.Signed(KeystoreOf(kb).value.primitives.sign(secret, message))))
  }

  /** The keystore after a run is the one it began with, but for the badges revoked. */
  ghost predicate KeysSince(b: KeyBackend, b': KeyBackend, events: seq<Event>) {
    && (b'.NoKeystore? <==> b.NoKeystore?) && (b'.RemoteKeystore? <==> b.RemoteKeystore?)
    && (b.RemoteKeystore? ==> b'.badge == b.badge)
    && (KeystoreOf(b).Some? ==>
          var ks, ks' := KeystoreOf(b).value, KeystoreOf(b').value;
          && ks'.primitives == ks.primitives && ks'.keys == ks.keys
          && forall badge :: GrantSince(ks, ks', badge, RevokeKey(badge) in events))
  }

  predicate GrantSince(ks: K.Keystore, ks': K.Keystore, badge: nat, revoked: bool) {
    && (badge in ks'.grants <==> badge in ks.grants)
    && (badge in ks.grants ==> ks'.grants[badge] == ks.grants[badge].(revoked := revoked || ks.grants[badge].revoked))
  }

  lemma KeysSinceStep(b: KeyBackend, h: HostState, front: seq<Event>, e: Event)
    requires KeysSince(b, h.keystore, front)
    ensures KeysSince(b, Step(h, e).0.keystore, front + [e])
  {
    var b' := Step(h, e).0.keystore;
    if KeystoreOf(b).Some? {
      var ks, mid := KeystoreOf(b).value, KeystoreOf(h.keystore).value;
      forall badge ensures GrantSince(ks, KeystoreOf(b').value, badge, RevokeKey(badge) in front + [e]) {
        assert GrantSince(ks, mid, badge, RevokeKey(badge) in front);
      }
    }
  }

  lemma {:induction false} RunKeysSince(h: HostState, events: seq<Event>)
    ensures KeysSince(h.keystore, Run(h, events).keystore, events)
  {
    hide Step;
    if events == [] {
      NothingRevoked(h.keystore);
    } else {
      var n := |events| - 1;
      RunKeysSince(h, events[..n]);
      KeysSinceStep(h.keystore, Run(h, events[..n]), events[..n], events[n]);
      assert events[..n] + [events[n]] == events;
    }
  }

  lemma NothingRevoked(b: KeyBackend)
    ensures KeysSince(b, b, [])
  {
  }

  /** One call, on the records as they are. */
  lemma MethodAnswers(h: HostState, rep: nat, call: K.KeyCall)
    requires KeystoreOf(h.keystore).Some? ==> K.Lawful(KeystoreOf(h.keystore).value.primitives)
    requires call.Sign? || |call.aad| < 0x1_0000_0000
    ensures var cap := KeyCap(h, rep);
            Step(h, Method(rep, call)).1 == KeyResult(
              if cap.None? || cap.value.service != KeystoreService then Err(K.Access)
              else KeyAnswer(h.keystore, cap.value, call, []))
  {
    hide CallKeystore, K.Serve, K.Authorize, K.Lawful, K.GuestView, KeyAnswer;
    if KeyCap(h, rep).Some? {
      UntypedAnswers(h.keystore, KeyCap(h, rep).value, call);
      if KeystoreOf(h.keystore).Some? && I.Typed(call) {
        TypedAnswers(h.keystore, KeyCap(h, rep).value, call);
      }
    }
  }

  lemma UntypedAnswers(b: KeyBackend, cap: HostCapability, call: K.KeyCall)
    ensures !I.Typed(call) ==> KeyAnswer(b, cap, call, []) == Err(K.Invalid)
    ensures I.Typed(call) && b.NoKeystore? ==> KeyAnswer(b, cap, call, []) == Err(K.Access)
  {
  }

  lemma TypedAnswers(b: KeyBackend, cap: HostCapability, call: K.KeyCall)
    requires KeystoreOf(b).Some? && K.Lawful(KeystoreOf(b).value.primitives)
    requires I.Typed(call) && (call.Sign? || |call.aad| < 0x1_0000_0000)
    ensures CallKeystore(b, cap, call).Returned?
    ensures K.GuestView(CallKeystore(b, cap, call).result) == KeyAnswer(b, cap, call, [])
  {
    hide CallKeystore, K.Serve, K.Authorize, K.Lawful, K.GuestView, I.Permits;
    HR.ServedAt(b, cap, call);
    var ks, a := KeystoreOf(b).value, ActualCap(b, cap);
    I.ViewOf(ks, a.badge, a.key, call);
    I.AuthorizeByRecords(ks, a.badge, a.key, K.OpOf(call));
  }

  lemma AnswersSince(b: KeyBackend, b': KeyBackend, events: seq<Event>, cap: HostCapability, call: K.KeyCall)
    requires KeysSince(b, b', events)
    ensures KeyAnswer(b', cap, call, []) == KeyAnswer(b, cap, call, events)
  {
    hide K.KeyOf;
    if KeystoreOf(b).Some? {
      var ks, ks' := KeystoreOf(b).value, KeystoreOf(b').value;
      SameTarget(b, b', events, cap);
      var badge := ActualCap(b, cap).badge;
      assert GrantSince(ks, ks', badge, RevokeKey(badge) in events);
    }
  }

  lemma SameTarget(b: KeyBackend, b': KeyBackend, events: seq<Event>, cap: HostCapability)
    requires KeysSince(b, b', events)
    ensures ActualCap(b', cap) == ActualCap(b, cap)
  {
    if b.RemoteKeystore? {
      assert GrantSince(b.ks, b'.ks, b.badge, RevokeKey(b.badge) in events);
    }
  }

  /** Every key call of every run is answered as its handle's own slot, the records at the start and the
      revocations since say: by the primitive under that key's secret, `access` without a permit, `invalid`
      for a wrong length, a key of the wrong kind or bytes that do not open; and `access` through anything
      that is not a live key handle. */
  lemma KeyRepliesFromHistory(m: GrantManifest, kb: KeyBackend, fb: FileBackend, events: seq<Event>, rep: nat,
                              call: K.KeyCall)
    requires KeystoreOf(kb).Some? ==> K.Lawful(KeystoreOf(kb).value.primitives)
    requires call.Sign? || |call.aad| < 0x1_0000_0000
    ensures var h := New(m, kb, fb);
            var reply := Step(Run(h, events), Method(rep, call)).1;
            && (forall cap :: NamesKey(h, events, rep, cap) && cap.service == KeystoreService ==>
                  reply == KeyResult(KeyAnswer(kb, cap, call, events)))
            && ((forall cap :: NamesKey(h, events, rep, cap) ==> cap.service != KeystoreService) ==>
                  reply == KeyResult(Err(K.Access)))
  {
    hide Run, Step, KeyAnswer, KeysSince, NamesKey, K.Lawful;
    var h := New(m, kb, fb);
    var t := Run(h, events);
    RunKeysSince(h, events);
    LawfulSince(kb, t.keystore, events);
    MethodAnswers(t, rep, call);
    forall cap ensures KeyCap(t, rep) == Some(cap) <==> NamesKey(h, events, rep, cap) {
      HandleNamesItsKey(m, kb, fb, events, rep, cap);
    }
    if KeyCap(t, rep).Some? {
      AnswersSince(kb, t.keystore, events, KeyCap(t, rep).value, call);
    }
  }

  lemma LawfulSince(b: KeyBackend, b': KeyBackend, events: seq<Event>)
    requires KeysSince(b, b', events)
    ensures KeystoreOf(b').Some? <==> KeystoreOf(b).Some?
    ensures KeystoreOf(b).Some? ==> KeystoreOf(b').value.primitives == KeystoreOf(b).value.primitives
  {
  }

  // ----- File calls -----

  /** The records let the handle read (or write) its file, and its badge has not been revoked. */
  ghost predicate MayTouch(fb: FileBackend, f: HostFile, writing: bool, events: seq<Event>) {
    && f.service == FilesystemService && StoreOf(fb).Some?
    && S.Permits(StoreOf(fb).value, ActualFile(fb, f).badge, ActualFile(fb, f).file, writing)
    && RevokeFile(ActualFile(fb, f).badge) !in events
  }

  /** What the store's own key grant answers, if it is refused: a guest reads status 1 as `access`. */
  function Sealing(fb: FileBackend): Option<K.ErrorCode> {
    if StoreOf(fb).None? || StoreOf(fb).value.cipher.refusal.None? then None
    else Some(if StoreOf(fb).value.cipher.refusal.value == 1 then K.Access else K.Invalid)
  }

  ghost function WriteAnswer(fb: FileBackend, f: HostFile, bytes: seq<byte>, events: seq<Event>)
    : Result<(), K.ErrorCode>
  {
    if f.service != FilesystemService then Err(K.Access)
    else if |bytes| > 256 then Err(K.Invalid)
    else if !MayTouch(fb, f, true, events) then Err(K.Access)
    else match Sealing(fb)
         case Some(code) => Err(code)
         case None => Ok(())
  }

  /** The event after `events` writes `file`. */
  ghost predicate Writes(h: HostState, events: seq<Event>, e: Event, file: nat) {
    e.FileWrite? && exists f :: WritesVia(h, events, e.rep, e.bytes, f, file)
  }

  ghost predicate WritesVia(h: HostState, events: seq<Event>, rep: nat, bytes: seq<byte>, f: HostFile, file: nat) {
    && NamesFile(h, events, rep, f) && ActualFile(h.filesystem, f).file == file
    && WriteAnswer(h.filesystem, f, bytes, events) == Ok(())
  }

  /** What `file` holds: the bytes of the last write that had to be accepted, or what it began with. */
  ghost function LastBytes(h: HostState, events: seq<Event>, file: nat): seq<byte> {
    if events == [] then FA.ContentIn(h.filesystem, file) else
    var front, e := events[..|events| - 1], events[|events| - 1];
    if Writes(h, front, e, file) then e.bytes else LastBytes(h, front, file)
  }

  ghost function ReadAnswer(h: HostState, f: HostFile, events: seq<Event>): Result<seq<byte>, K.ErrorCode> {
    var file := ActualFile(h.filesystem, f).file;
    if !MayTouch(h.filesystem, f, false, events) then Err(K.Access)
    else if Sealing(h.filesystem).Some? && StoreOf(h.filesystem).value.files[file].block.Some? then
      Err(Sealing(h.filesystem).value)
    else Ok(LastBytes(h, events, file))
  }

  // ----- One file call, on the records as they are -----

  lemma PermitsAre(fb: FileBackend, f: HostFile, writing: bool)
    ensures FA.Permits(fb, f, writing) <==> MayTouch(fb, f, writing, [])
    ensures StoreOf(fb).Some? ==> S.RefusalCode(StoreOf(fb).value.cipher) == Sealing(fb)
  {
    if StoreOf(fb).Some? {
      S.AccessByRecords(StoreOf(fb).value, ActualFile(fb, f).badge, ActualFile(fb, f).file, writing);
    }
  }

  lemma WriteAnswers(h: HostState, rep: nat, bytes: seq<byte>)
    requires FA.SoundBackend(h.filesystem)
    ensures var f := FileCap(h, rep);
            Step(h, FileWrite(rep, bytes)).1 ==
            WriteResult(if f.None? then Err(K.Access) else WriteAnswer(h.filesystem, f.value, bytes, []))
  {
    hide Step, FA.Permits, MayTouch, FA.SoundBackend;
    var f := FileCap(h, rep);
    if f.None? || |bytes| > 256 {
      PlainlyRefused(h, rep, bytes);
    } else {
      FA.WriteOutcome(h, rep, f.value, bytes);
      PermitsAre(h.filesystem, f.value, true);
      NeedsTheService(h.filesystem, f.value);
    }
  }

  lemma PlainlyRefused(h: HostState, rep: nat, bytes: seq<byte>)
    requires FileCap(h, rep).None? || |bytes| > 256
    ensures Step(h, FileWrite(rep, bytes)).1 ==
            WriteResult(Err(if FileCap(h, rep).None? || FileCap(h, rep).value.service != FilesystemService then K.Access
                            else K.Invalid))
  {
  }

  lemma NeedsTheService(fb: FileBackend, f: HostFile)
    ensures FA.Permits(fb, f, true) ==> f.service == FilesystemService && StoreOf(fb).Some?
  {
  }

  lemma ReadAnswers(h: HostState, rep: nat)
    requires FA.SoundBackend(h.filesystem)
    ensures var f := FileCap(h, rep);
            Step(h, FileRead(rep)).1 == ReadResult(if f.None? then Err(K.Access) else FA.Reads(h.filesystem, f.value))
  {
    hide FA.Reads, FA.SoundBackend;
    if FileCap(h, rep).Some? {
      hide Step;
      FA.ReadOutcome(h, rep, FileCap(h, rep).value);
    }
  }

  // ----- The store over a run -----

  ghost predicate SameFor(h: HostState, events: seq<Event>, b: FileBackend, f: HostFile, writing: bool) {
    && ActualFile(b, f) == ActualFile(h.filesystem, f)
    && (FA.Permits(b, f, writing) <==> MayTouch(h.filesystem, f, writing, events))
  }

  /** What a run leaves of the store it began with. */
  ghost predicate FilesSince(h: HostState, events: seq<Event>, b: FileBackend) {
    && (StoreOf(b).Some? <==> StoreOf(h.filesystem).Some?) && FA.SoundBackend(b)
    && (forall f: HostFile, w :: SameFor(h, events, b, f, w))
    && (forall file :: FA.ContentIn(b, file) == LastBytes(h, events, file))
    && Sealing(b) == Sealing(h.filesystem)
    && (StoreOf(b).Some? && Sealing(b).Some? ==>
          forall file :: SameBlock(StoreOf(h.filesystem).value, StoreOf(b).value, file))
  }

  predicate SameBlock(st: S.Store, st': S.Store, file: nat) {
    && (file in st'.files <==> file in st.files)
    && (file in st.files ==> (st'.files[file].block.Some? <==> st.files[file].block.Some?))
  }

  lemma PermitsStep(h: HostState, e: Event, f: HostFile, writing: bool)
    ensures var b' := Step(h, e).0.filesystem;
            && ActualFile(b', f) == ActualFile(h.filesystem, f)
            && (FA.Permits(b', f, writing) <==>
                  FA.Permits(h.filesystem, f, writing) && e != RevokeFile(ActualFile(h.filesystem, f).badge))
            && (StoreOf(b').Some? <==> StoreOf(h.filesystem).Some?)
            && Sealing(b') == Sealing(h.filesystem)
  {
    if e.FileWrite? && FileCap(h, e.rep).Some? && StoreOf(h.filesystem).Some? {
      hide FA.Permits, ActualFile, S.WriteBlock;
      FA.WriteGrants(h.filesystem, FileCap(h, e.rep).value, e.bytes);
      assert FA.SameFor(h.filesystem, WriteFile(h.filesystem, FileCap(h, e.rep).value, e.bytes).0, f, writing);
      SealingKept(h.filesystem, FileCap(h, e.rep).value, e.bytes);
    }
  }

  lemma SealingKept(b: FileBackend, f: HostFile, bytes: seq<byte>)
    requires StoreOf(b).Some?
    ensures Sealing(WriteFile(b, f, bytes).0) == Sealing(b) && StoreOf(WriteFile(b, f, bytes).0).Some?
  {
  }

  lemma BlocksStep(h: HostState, e: Event, file: nat)
    requires StoreOf(h.filesystem).Some? && Sealing(h.filesystem).Some? && StoreOf(Step(h, e).0.filesystem).Some?
    ensures SameBlock(StoreOf(h.filesystem).value, StoreOf(Step(h, e).0.filesystem).value, file)
  {
  }

  lemma WriteAnswerSince(h: HostState, front: seq<Event>, b: FileBackend, f: HostFile, bytes: seq<byte>)
    requires FilesSince(h, front, b)
    ensures WriteAnswer(b, f, bytes, []) == WriteAnswer(h.filesystem, f, bytes, front)
  {
    hide MayTouch, FA.SoundBackend, FA.ContentIn, Sealing, FA.Permits, LastBytes;
    assert SameFor(h, front, b, f, true);
    PermitsAre(b, f, true);
  }

  /** In a run the guest sees a write accepted exactly when its history says so. */
  lemma AcceptedIsWritten(m: GrantManifest, kb: KeyBackend, fb: FileBackend, front: seq<Event>, e: Event, file: nat)
    requires FilesSince(New(m, kb, fb), front, Run(New(m, kb, fb), front).filesystem)
    ensures HR.AcceptedWrite(Run(New(m, kb, fb), front), e, file) <==> Writes(New(m, kb, fb), front, e, file)
  {
    hide Run, Step, WriteAnswer, MayTouch, FA.ContentIn, NamesFile, FA.Permits;
    var h := New(m, kb, fb);
    var mid := Run(h, front);
    if e.FileWrite? {
      forall f ensures FileCap(mid, e.rep) == Some(f) <==> NamesFile(h, front, e.rep, f) {
        HandleNamesItsFile(m, kb, fb, front, e.rep, f);
      }
      WriteAnswers(mid, e.rep, e.bytes);
      if FileCap(mid, e.rep).Some? {
        var f := FileCap(mid, e.rep).value;
        WriteAnswerSince(h, front, mid.filesystem, f, e.bytes);
        assert SameFor(h, front, mid.filesystem, f, true);
        assert WritesVia(h, front, e.rep, e.bytes, f, file) <==>
          ActualFile(fb, f).file == file && WriteAnswer(fb, f, e.bytes, front) == Ok(());
      }
    }
  }

  lemma ContentSince(m: GrantManifest, kb: KeyBackend, fb: FileBackend, events: seq<Event>, file: nat)
    requires events != []
    requires var front := events[..|events| - 1];
             FilesSince(New(m, kb, fb), front, Run(New(m, kb, fb), front).filesystem)
    ensures FA.ContentIn(Run(New(m, kb, fb), events).filesystem, file) == LastBytes(New(m, kb, fb), events, file)
    ensures FA.SoundBackend(Run(New(m, kb, fb), events).filesystem)
  {
    hide Step, S.Content, S.Sound, MayTouch, FA.Permits, Writes, HR.AcceptedWrite;
    var front, e := events[..|events| - 1], events[|events| - 1];
    var mid := Run(New(m, kb, fb), front);
    AcceptedIsWritten(m, kb, fb, front, e, file);
    if mid.filesystem.NoFilesystem? {
      NothingWritten(mid, e, file);
    } else {
      HR.StepFiles(mid, e, file);
    }
  }

  lemma NothingWritten(h: HostState, e: Event, file: nat)
    requires h.filesystem.NoFilesystem?
    ensures Step(h, e).0.filesystem.NoFilesystem? && !HR.AcceptedWrite(h, e, file)
  {
  }

  lemma FilesSinceStep(m: GrantManifest, kb: KeyBackend, fb: FileBackend, events: seq<Event>)
    requires events != []
    requires var front := events[..|events| - 1];
             FilesSince(New(m, kb, fb), front, Run(New(m, kb, fb), front).filesystem)
    ensures FilesSince(New(m, kb, fb), events, Run(New(m, kb, fb), events).filesystem)
  {
    hide Step, FA.Permits, S.Permits, FA.ContentIn, FA.SoundBackend, Sealing, SameBlock, LastBytes, ActualFile;
    var h, front, e := New(m, kb, fb), events[..|events| - 1], events[|events| - 1];
    var mid, b := Run(h, front), Run(h, events).filesystem;
    forall f: HostFile, w ensures SameFor(h, events, b, f, w) {
      assert SameFor(h, front, mid.filesystem, f, w);
      PermitsStep(mid, e, f, w);
      var revoke := RevokeFile(ActualFile(fb, f).badge);
      assert events == front + [e];
      assert revoke in events <==> revoke in front || revoke == e;
    }
    forall file ensures FA.ContentIn(b, file) == LastBytes(h, events, file) && FA.SoundBackend(b) {
      ContentSince(m, kb, fb, events, file);
    }
    assert FA.ContentIn(b, 0) == LastBytes(h, events, 0);
    PermitsStep(mid, e, HostFile(0, 0, FilesystemService), true);
    if StoreOf(b).Some? && Sealing(b).Some? {
      forall file ensures SameBlock(StoreOf(fb).value, StoreOf(b).value, file) {
        assert SameBlock(StoreOf(fb).value, StoreOf(mid.filesystem).value, file);
        BlocksStep(mid, e, file);
        BlocksCompose(StoreOf(fb).value, StoreOf(mid.filesystem).value, StoreOf(b).value, file);
      }
    }
  }

  lemma BlocksCompose(st: S.Store, mid: S.Store, st': S.Store, file: nat)
    requires SameBlock(st, mid, file) && SameBlock(mid, st', file)
    ensures SameBlock(st, st', file)
  {
  }

  lemma {:induction false} RunFilesSince(m: GrantManifest, kb: KeyBackend, fb: FileBackend, events: seq<Event>)
    requires FA.SoundBackend(fb)
    ensures FilesSince(New(m, kb, fb), events, Run(New(m, kb, fb), events).filesystem)
  {
    if events == [] {
      FilesAtStart(New(m, kb, fb));
    } else {
      hide FilesSince, FA.SoundBackend, Step;
      RunFilesSince(m, kb, fb, events[..|events| - 1]);
      FilesSinceStep(m, kb, fb, events);
    }
  }

  lemma FilesAtStart(h: HostState)
    requires FA.SoundBackend(h.filesystem)
    ensures FilesSince(h, [], h.filesystem)
  {
    forall f: HostFile, w ensures SameFor(h, [], h.filesystem, f, w) {
      PermitsAre(h.filesystem, f, w);
    }
  }

  /** Every file call of every run is answered as its handle's own slot, the records at the start, the writes
      that had to be accepted and the revocations since say. */
  lemma FileRepliesFromHistory(m: GrantManifest, kb: KeyBackend, fb: FileBackend, events: seq<Event>, rep: nat,
                               bytes: seq<byte>)
    requires FA.SoundBackend(fb)
    ensures var h := New(m, kb, fb);
            var t := Run(h, events);
            && (forall f :: NamesFile(h, events, rep, f) ==>
                  && Step(t, FileRead(rep)).1 == ReadResult(ReadAnswer(h, f, events))
                  && Step(t, FileWrite(rep, bytes)).1 == WriteResult(WriteAnswer(fb, f, bytes, events)))
            && ((forall f :: !NamesFile(h, events, rep, f)) ==>
                  && Step(t, FileRead(rep)).1 == ReadResult(Err(K.Access))
                  && Step(t, FileWrite(rep, bytes)).1 == WriteResult(Err(K.Access)))
  {
    hide Run, Step, WriteAnswer, ReadAnswer, FA.Reads, NamesFile, FilesSince;
    var h := New(m, kb, fb);
    var t := Run(h, events);
    RunFilesSince(m, kb, fb, events);
    StaysSound(h, events, t.filesystem);
    ReadAnswers(t, rep);
    WriteAnswers(t, rep, bytes);
    forall f ensures FileCap(t, rep) == Some(f) <==> NamesFile(h, events, rep, f) {
      HandleNamesItsFile(m, kb, fb, events, rep, f);
    }
    if FileCap(t, rep).Some? {
      WriteAnswerSince(h, events, t.filesystem, FileCap(t, rep).value, bytes);
      ReadAnswerSince(h, events, t.filesystem, FileCap(t, rep).value);
    }
  }

  lemma StaysSound(h: HostState, events: seq<Event>, b: FileBackend)
    requires FilesSince(h, events, b)
    ensures FA.SoundBackend(b)
  {
  }

  lemma ReadAnswerSince(h: HostState, events: seq<Event>, b: FileBackend, f: HostFile)
    requires FilesSince(h, events, b)
    ensures FA.Reads(b, f) == ReadAnswer(h, f, events)
  {
    hide FA.Permits, FA.SoundBackend, LastBytes, S.Content, S.RefusalCode, Sealing, RevokeFileAt;
    assert SameFor(h, events, b, f, false);
    PermitsAre(b, f, false);
    if FA.Permits(b, f, false) {
      var file := ActualFile(b, f).file;
      PermittedExists(b, f);
      assert FA.ContentIn(b, file) == LastBytes(h, events, file);
      if Sealing(b).Some? {
        assert SameBlock(StoreOf(h.filesystem).value, StoreOf(b).value, file);
      }
    }
  }

  lemma PermittedExists(b: FileBackend, f: HostFile)
    requires FA.Permits(b, f, false)
    ensures StoreOf(b).Some? && ActualFile(b, f).file in StoreOf(b).value.files
    ensures Sealing(b).Some? <==> StoreOf(b).value.cipher.refusal.Some?
  {
  }
}
