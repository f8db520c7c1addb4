/** What a guest can learn: nothing of any key, file or grant but those its slots are really served under. */
module HostSecrecy {
  import opened Prelude
  import opened Host
  import opened HostRuns
  import K = Keystore
  import I = IpcKeystore
  import S = Store

  function At<T>(m: map<nat, T>, k: nat): Option<T> {
    if k in m then Some(m[k]) else None
  }

  /** Two keystores that differ in nothing that serving `cap` depends on. */
  ghost predicate KeyAlike(b: KeyBackend, b': KeyBackend, cap: HostCapability) {
    var actual := ActualCap(b, cap);
    && ActualCap(b', cap) == actual
    && (KeystoreOf(b).Some? && KeystoreOf(b').Some? ==>
          && At(KeystoreOf(b').value.grants, actual.badge) == At(KeystoreOf(b).value.grants, actual.badge)
          && At(KeystoreOf(b').value.keys, actual.key) == At(KeystoreOf(b).value.keys, actual.key))
  }

  ghost predicate FileAlike(b: FileBackend, b': FileBackend, f: HostFile) {
    var actual := ActualFile(b, f);
    && ActualFile(b', f) == actual
    && (StoreOf(b).Some? && StoreOf(b').Some? ==>
          && At(StoreOf(b').value.grants, actual.badge) == At(StoreOf(b).value.grants, actual.badge)
          && At(StoreOf(b').value.files, actual.file) == At(StoreOf(b).value.files, actual.file))
  }

  /** Backends of one kind, with one set of primitives, that agree on the grants and objects the filled slots
      are really served under, and on nothing else. */
  ghost predicate KeysAlike(keys: seq<Option<HostCapability>>, b: KeyBackend, b': KeyBackend) {
    && (b'.NoKeystore? <==> b.NoKeystore?) && (b'.RemoteKeystore? <==> b.RemoteKeystore?)
    && (KeystoreOf(b).Some? ==> KeystoreOf(b').value.primitives == KeystoreOf(b).value.primitives)
    && forall cap :: Some(cap) in keys ==> KeyAlike(b, b', cap)
  }

  ghost predicate FilesAlike(files: seq<Option<HostFile>>, b: FileBackend, b': FileBackend) {
    && (b'.NoFilesystem? <==> b.NoFilesystem?) && (b'.RemoteFilesystem? <==> b.RemoteFilesystem?)
    && (StoreOf(b).Some? ==> StoreOf(b').value.cipher == StoreOf(b).value.cipher)
    && forall f :: Some(f) in files ==> FileAlike(b, b', f)
  }

  ghost predicate TableGranted(h: HostState) {
    forall rep :: rep in h.table ==> EntryGranted(h, h.table[rep])
  }

  /** Two hosts a guest holding these slots cannot tell apart. */
  ghost predicate Alike(h: HostState, h': HostState) {
    && h' == h.(keystore := h'.keystore, filesystem := h'.filesystem)
    && TableGranted(h)
    && KeysAlike(h.keys, h.keystore, h'.keystore)
    && FilesAlike(h.files, h.filesystem, h'.filesystem)
  }

  // ----- One call -----

  lemma ServeDependsOn(ks: K.Keystore, ks': K.Keystore, badge: nat, key: nat, call: K.KeyCall)
    requires ks'.primitives == ks.primitives
    requires At(ks'.grants, badge) == At(ks.grants, badge) && At(ks'.keys, key) == At(ks.keys, key)
    ensures K.Serve(ks', badge, key, call) == K.Serve(ks, badge, key, call)
  {
    assert badge in ks'.grants <==> badge in ks.grants;
    assert key in ks'.keys <==> key in ks.keys;
  }

  lemma AnswerDependsOn(ks: K.Keystore, ks': K.Keystore, badge: nat, op: K.WireOp, request: seq<byte>)
    requires ks'.primitives == ks.primitives && K.KeyOf(ks', badge) == K.KeyOf(ks, badge)
    requires At(ks'.grants, badge) == At(ks.grants, badge)
    requires At(ks'.keys, K.KeyOf(ks, badge)) == At(ks.keys, K.KeyOf(ks, badge))
    ensures K.ServiceAnswer(ks', badge, op, request) == K.ServiceAnswer(ks, badge, op, request)
  {
    if K.DecodeCall(op, request).Some? {
      ServeDependsOn(ks, ks', badge, K.KeyOf(ks, badge), K.DecodeCall(op, request).value);
    }
  }

  lemma CallsAlike(b: KeyBackend, b': KeyBackend, cap: HostCapability, call: K.KeyCall,
                   keys: seq<Option<HostCapability>>)
    requires KeysAlike(keys, b, b') && Some(cap) in keys && !b.NoKeystore?
    ensures CallKeystore(b', cap, call) == CallKeystore(b, cap, call)
  {
    assert KeyAlike(b, b', cap);
    hide K.Serve, K.ServiceAnswer;
    match b
    case LocalKeystore(ks) => ServeDependsOn(ks, b'.ks, cap.badge, cap.key, call);
    case RemoteKeystore(ks, badge) =>
      if I.Encodable(call) {
        AnswerDependsOn(ks, b'.ks, badge, I.OpCodeOf(call), I.RequestBytes(call));
      }
  }

  lemma AccessDependsOn(st: S.Store, st': S.Store, badge: nat, file: nat, writing: bool)
    requires At(st'.grants, badge) == At(st.grants, badge) && At(st'.files, file) == At(st.files, file)
    ensures S.CheckAccess(st', badge, file, writing) == S.CheckAccess(st, badge, file, writing)
  {
    assert badge in st'.grants <==> badge in st.grants;
    assert file in st'.files <==> file in st.files;
  }

  lemma ReadDependsOn(st: S.Store, st': S.Store, badge: nat, file: nat)
    requires st'.cipher == st.cipher
    requires At(st'.grants, badge) == At(st.grants, badge) && At(st'.files, file) == At(st.files, file)
    ensures S.ReadBlock(st', badge, file) == S.ReadBlock(st, badge, file)
  {
    AccessDependsOn(st, st', badge, file, false);
  }

  lemma ReadsAlike(b: FileBackend, b': FileBackend, f: HostFile, files: seq<Option<HostFile>>)
    requires FilesAlike(files, b, b') && Some(f) in files && !b.NoFilesystem?
    ensures ReadFile(b', f) == ReadFile(b, f)
  {
    assert FileAlike(b, b', f);
    hide S.ReadBlock;
    ReadDependsOn(StoreOf(b).value, StoreOf(b').value, ActualFile(b, f).badge, ActualFile(b, f).file);
  }

  lemma WriteDependsOn(st: S.Store, st': S.Store, badge: nat, file: nat, data: seq<byte>)
    requires st'.cipher == st.cipher
    requires At(st'.grants, badge) == At(st.grants, badge) && At(st'.files, file) == At(st.files, file)
    ensures var (t, r) := S.WriteBlock(st, badge, file, data);
            var (t', r') := S.WriteBlock(st', badge, file, data);
            && r' == r
            && t.grants == st.grants && t'.grants == st'.grants && t.cipher == st.cipher && t'.cipher == st'.cipher
            && At(t'.files, file) == At(t.files, file)
            && forall g :: g != file ==> At(t.files, g) == At(st.files, g) && At(t'.files, g) == At(st'.files, g)
  {
    AccessDependsOn(st, st', badge, file, true);
  }

  /** A write through a granted slot answers alike, and leaves two stores that still agree on every slot. */
  lemma WritesAlike(b: FileBackend, b': FileBackend, f: HostFile, bytes: seq<byte>, files: seq<Option<HostFile>>)
    requires FilesAlike(files, b, b') && Some(f) in files && !b.NoFilesystem?
    ensures WriteFile(b', f, bytes).1 == WriteFile(b, f, bytes).1
    ensures FilesAlike(files, WriteFile(b, f, bytes).0, WriteFile(b', f, bytes).0)
  {
    assert FileAlike(b, b', f);
    hide S.WriteBlock;
    var actual := ActualFile(b, f);
    WriteDependsOn(StoreOf(b).value, StoreOf(b').value, actual.badge, actual.file, bytes);
    var c, c' := WriteFile(b, f, bytes).0, WriteFile(b', f, bytes).0;
    assert StoreOf(c).value == S.WriteBlock(StoreOf(b).value, actual.badge, actual.file, bytes).0;
    assert StoreOf(c').value == S.WriteBlock(StoreOf(b').value, actual.badge, actual.file, bytes).0;
    forall g | Some(g) in files ensures FileAlike(c, c', g) {
      assert FileAlike(b, b', g);
    }
  }

  // ----- One step -----

  lemma KeyStepAlike(h: HostState, h': HostState, rep: nat, call: K.KeyCall)
    requires Alike(h, h')
    ensures Alike(KeyMethod(h, rep, call).0, KeyMethod(h', rep, call).0)
    ensures KeyMethod(h', rep, call).1 == KeyMethod(h, rep, call).1
  {
    hide CallKeystore, FilesAlike;
    if KeyCap(h, rep).Some? {
      assert EntryGranted(h, h.table[rep]);
      var cap := KeyCap(h, rep).value;
      assert KeyAlike(h.keystore, h'.keystore, cap);
      if !h.keystore.NoKeystore? {
        CallsAlike(h.keystore, h'.keystore, cap, call, h.keys);
      }
    }
    SameTable(h, KeyMethod(h, rep, call).0);
  }

  lemma ReadStepAlike(h: HostState, h': HostState, rep: nat)
    requires Alike(h, h')
    ensures Alike(FileReadMethod(h, rep).0, FileReadMethod(h', rep).0)
    ensures FileReadMethod(h', rep).1 == FileReadMethod(h, rep).1
  {
    hide ReadFile, KeysAlike;
    if FileCap(h, rep).Some? {
      assert EntryGranted(h, h.table[rep]);
      var f := FileCap(h, rep).value;
      assert FileAlike(h.filesystem, h'.filesystem, f);
      if !h.filesystem.NoFilesystem? {
        ReadsAlike(h.filesystem, h'.filesystem, f, h.files);
      }
    }
    SameTable(h, FileReadMethod(h, rep).0);
  }

  lemma WriteStepAlike(h: HostState, h': HostState, rep: nat, bytes: seq<byte>)
    requires Alike(h, h')
    ensures Alike(FileWriteMethod(h, rep, bytes).0, FileWriteMethod(h', rep, bytes).0)
    ensures FileWriteMethod(h', rep, bytes).1 == FileWriteMethod(h, rep, bytes).1
  {
    hide WriteFile, KeysAlike;
    if FileCap(h, rep).Some? {
      assert EntryGranted(h, h.table[rep]);
      var f := FileCap(h, rep).value;
      assert FileAlike(h.filesystem, h'.filesystem, f);
      if !h.filesystem.NoFilesystem? {
        WritesAlike(h.filesystem, h'.filesystem, f, bytes, h.files);
      }
    }
    SameTable(h, FileWriteMethod(h, rep, bytes).0);
  }

  lemma SameTable(h: HostState, g: HostState)
    requires TableGranted(h) && g.table == h.table && g.keys == h.keys && g.files == h.files
    ensures TableGranted(g)
  {
    forall rep | rep in g.table ensures EntryGranted(g, g.table[rep]) {
      assert EntryGranted(h, h.table[rep]);
    }
  }

  lemma RevokeKeyAlike(keys: seq<Option<HostCapability>>, b: KeyBackend, b': KeyBackend, badge: nat)
    requires KeysAlike(keys, b, b')
    ensures KeysAlike(keys, RevokeKeyAt(b, badge), RevokeKeyAt(b', badge))
  {
    forall cap | Some(cap) in keys ensures KeyAlike(RevokeKeyAt(b, badge), RevokeKeyAt(b', badge), cap) {
      assert KeyAlike(b, b', cap);
      if KeystoreOf(b).Some? {
        RevokedGrant(KeystoreOf(b).value, badge, ActualCap(b, cap).badge);
        RevokedGrant(KeystoreOf(b').value, badge, ActualCap(b, cap).badge);
      }
    }
  }

  lemma RevokedGrant(ks: K.Keystore, revoked: nat, badge: nat)
    ensures At(K.Revoke(ks, revoked).grants, badge) ==
            match At(ks.grants, badge)
            case None => None
            case Some(g) => Some(if badge == revoked then g.(revoked := true) else g)
  {
  }

  lemma RevokeFileAlike(files: seq<Option<HostFile>>, b: FileBackend, b': FileBackend, badge: nat)
    requires FilesAlike(files, b, b')
    ensures FilesAlike(files, RevokeFileAt(b, badge), RevokeFileAt(b', badge))
  {
    forall f | Some(f) in files ensures FileAlike(RevokeFileAt(b, badge), RevokeFileAt(b', badge), f) {
      assert FileAlike(b, b', f);
      if StoreOf(b).Some? {
        RevokedFileGrant(StoreOf(b).value, badge, ActualFile(b, f).badge);
        RevokedFileGrant(StoreOf(b').value, badge, ActualFile(b, f).badge);
      }
    }
  }

  lemma RevokedFileGrant(st: S.Store, revoked: nat, badge: nat)
    ensures At(S.Revoke(st, revoked).grants, badge) ==
            match At(st.grants, badge)
            case None => None
            case Some(g) => Some(if badge == revoked then g.(revoked := true) else g)
  {
  }

  /** Opening, dropping and the clock look only at the slots, the table and the clock. */
  lemma TableStepAlike(h: HostState, h': HostState, e: Event)
    requires Alike(h, h') && !e.Method? && !e.FileRead? && !e.FileWrite? && !e.RevokeKey? && !e.RevokeFile?
    ensures Alike(Step(h, e).0, Step(h', e).0) && Step(h', e).1 == Step(h, e).1
  {
    hide KeysAlike, FilesAlike, EntryGranted;
    StepKeepsTable(h, e);
  }

  lemma StepAlike(h: HostState, h': HostState, e: Event)
    requires Alike(h, h')
    ensures Alike(Step(h, e).0, Step(h', e).0) && Step(h', e).1 == Step(h, e).1
  {
    hide KeyMethod, FileReadMethod, FileWriteMethod, KeysAlike, FilesAlike, RevokeKeyAt, RevokeFileAt;
    hide Push, KeyCap, FileCap;
    match e
    case Method(rep, call) => KeyStepAlike(h, h', rep, call);
    case FileRead(rep) => ReadStepAlike(h, h', rep);
    case FileWrite(rep, bytes) => WriteStepAlike(h, h', rep, bytes);
    case RevokeKey(badge) =>
      RevokeKeyAlike(h.keys, h.keystore, h'.keystore, badge);
      SameTable(h, Step(h, e).0);
    case RevokeFile(badge) =>
      RevokeFileAlike(h.files, h.filesystem, h'.filesystem, badge);
      SameTable(h, Step(h, e).0);
    case _ => TableStepAlike(h, h', e);
  }

  // ----- Whole runs -----

  lemma {:induction false} RunAlike(h: HostState, h': HostState, events: seq<Event>)
    requires Alike(h, h')
    ensures Alike(Run(h, events), Run(h', events))
  {
    hide Alike, Step;
    if events != [] {
      RunAlike(h, h', events[..|events| - 1]);
      StepAlike(Run(h, events[..|events| - 1]), Run(h', events[..|events| - 1]), events[|events| - 1]);
    }
  }

  /** Confidentiality: two hosts of one manifest, over services that agree on the grants and objects its
      filled slots are really served under and may differ in every other key, file and grant, answer every
      call of every run alike, revocations included. */
  lemma NothingElseIsLearned(m: GrantManifest, kb: KeyBackend, fb: FileBackend, kb': KeyBackend, fb': FileBackend,
                             events: seq<Event>, i: nat)
    requires KeysAlike(m.keystoreKeys, kb, kb') && FilesAlike(m.filesystemFiles, fb, fb')
    requires i < |events|
    ensures ReplyAt(New(m, kb', fb'), events, i) == ReplyAt(New(m, kb, fb), events, i)
  {
    var h, h' := New(m, kb, fb), New(m, kb', fb');
    assert Alike(h, h');
    hide Alike, Step, Run, New;
    RunAlike(h, h', events[..i]);
    StepAlike(Run(h, events[..i]), Run(h', events[..i]), events[i]);
  }
}
