/** What holds of every sequence of guest calls: authority stays within the manifest, files behave as
    files, and revocation is final. */
module HostRuns {
  import opened Prelude
  import opened Host
  import K = Keystore
  import I = IpcKeystore
  import S = Store

  // ----- What a service is made to serve -----

  function Actuals<T>(slots: seq<Option<T>>, actual: T -> T): (r: seq<Option<T>>)
    ensures |r| == |slots|
    ensures forall i :: 0 <= i < |r| ==> r[i] == if slots[i].None? then None else Some(actual(slots[i].value))
  {
    seq(|slots|, i requires 0 <= i < |slots| => if slots[i].None? then None else Some(actual(slots[i].value)))
  }

  /** The manifest with every filled slot naming what its handles are really served under. */
  function ActualManifest(m: GrantManifest, kb: KeyBackend, fb: FileBackend): GrantManifest {
    GrantManifest(
      Actuals(m.keystoreKeys, cap => ActualCap(kb, cap)),
      Actuals(m.filesystemFiles, f => ActualFile(fb, f)),
      m.monotonicClock)
  }

  /** Two backends that serve every handle under the same badge and object. */
  ghost predicate SameTargets(kb: KeyBackend, fb: FileBackend, kb': KeyBackend, fb': FileBackend) {
    && (forall cap :: ActualCap(kb', cap) == ActualCap(kb, cap))
    && (forall f :: ActualFile(fb', f) == ActualFile(fb, f))
  }

  /** Nothing a guest calls, and no revocation, changes what a handle is served under. */
  lemma StepKeepsTargets(h: HostState, e: Event)
    ensures SameTargets(h.keystore, h.filesystem, Step(h, e).0.keystore, Step(h, e).0.filesystem)
  {
  }

  ghost predicate EntryGranted(h: HostState, e: Entry) {
    match e
    case KeyEntry(cap) => Some(cap) in h.keys
    case FileEntry(f) => Some(f) in h.files
  }

  /** The pair served is a filled slot's, in the vector of the service that served it. */
  predicate ServedGranted(m: GrantManifest, s: Served) {
    match s
    case AtKeystore(badge, key) => Some(HostCapability(badge, key, KeystoreService)) in m.keystoreKeys
    case AtFilesystem(badge, file) => Some(HostFile(badge, file, FilesystemService)) in m.filesystemFiles
  }

  /** A host of manifest `m`, whose backends serve handles as `kb` and `fb` do. */
  ghost predicate Confined(m: GrantManifest, kb: KeyBackend, fb: FileBackend, h: HostState) {
    && h.keys == m.keystoreKeys && h.files == m.filesystemFiles
    && SameTargets(kb, fb, h.keystore, h.filesystem)
    && (forall rep :: rep in h.table ==> EntryGranted(h, h.table[rep]))
    && (forall s :: s in h.served ==> ServedGranted(ActualManifest(m, kb, fb), s))
  }

  lemma CapGranted(m: GrantManifest, kb: KeyBackend, fb: FileBackend, cap: HostCapability)
    requires Some(cap) in m.keystoreKeys
    ensures Some(ActualCap(kb, cap)) in ActualManifest(m, kb, fb).keystoreKeys
  {
    var i :| 0 <= i < |m.keystoreKeys| && m.keystoreKeys[i] == Some(cap);
    assert ActualManifest(m, kb, fb).keystoreKeys[i] == Some(ActualCap(kb, cap));
  }

  lemma FileGranted(m: GrantManifest, kb: KeyBackend, fb: FileBackend, f: HostFile)
    requires Some(f) in m.filesystemFiles
    ensures Some(ActualFile(fb, f)) in ActualManifest(m, kb, fb).filesystemFiles
  {
    var i :| 0 <= i < |m.filesystemFiles| && m.filesystemFiles[i] == Some(f);
    assert ActualManifest(m, kb, fb).filesystemFiles[i] == Some(ActualFile(fb, f));
  }

  lemma StepKeepsTable(h: HostState, e: Event)
    requires forall rep :: rep in h.table ==> EntryGranted(h, h.table[rep])
    ensures var h' := Step(h, e).0;
            && h'.keys == h.keys && h'.files == h.files
            && forall rep :: rep in h'.table ==> EntryGranted(h', h'.table[rep])
  {
    var h' := Step(h, e).0;
    forall rep | rep in h'.table ensures EntryGranted(h', h'.table[rep]) {
      if rep in h.table {
        assert EntryGranted(h, h.table[rep]);
      }
    }
  }

  /** One call makes a service serve at most one pair, a granted one. */
  lemma StepServesGranted(m: GrantManifest, kb: KeyBackend, fb: FileBackend, h: HostState, e: Event)
    requires Confined(m, kb, fb, h)
    ensures forall s :: s in Step(h, e).0.served ==> ServedGranted(ActualManifest(m, kb, fb), s)
  {
    hide ActualManifest, ActualCap, ActualFile, CallKeystore, ReadFile, WriteFile;
    if e.Method? && KeyCap(h, e.rep).Some? {
      assert EntryGranted(h, h.table[e.rep]);
      CapGranted(m, kb, fb, KeyCap(h, e.rep).value);
    } else if (e.FileRead? || e.FileWrite?) && FileCap(h, e.rep).Some? {
      assert EntryGranted(h, h.table[e.rep]);
      FileGranted(m, kb, fb, FileCap(h, e.rep).value);
    }
  }

  lemma {:induction false} RunKeepsConfined(m: GrantManifest, kb: KeyBackend, fb: FileBackend, events: seq<Event>)
    ensures Confined(m, kb, fb, Run(New(m, kb, fb), events))
  {
    hide Step, ServedGranted;
    if events != [] {
      RunKeepsConfined(m, kb, fb, events[..|events| - 1]);
      var mid, e := Run(New(m, kb, fb), events[..|events| - 1]), events[|events| - 1];
      StepKeepsTargets(mid, e);
      StepKeepsTable(mid, e);
      StepServesGranted(m, kb, fb, mid, e);
    }
  }

  /** Whatever a guest does with its handles, stale, recycled or of the wrong kind, every call a service
      takes up is under the badge and object that a filled slot of that service's own vector is really
      served under. */
  lemma AuthorityIsConfined(m: GrantManifest, kb: KeyBackend, fb: FileBackend, events: seq<Event>, s: Served)
    requires s in Run(New(m, kb, fb), events).served
    ensures ServedGranted(ActualManifest(m, kb, fb), s)
  {
    RunKeepsConfined(m, kb, fb, events);
  }

  /** A service in process is made to serve only what a slot of the manifest itself names. */
  lemma LocalServicesServeSlots(m: GrantManifest, kb: KeyBackend, fb: FileBackend, events: seq<Event>, s: Served)
    requires s in Run(New(m, kb, fb), events).served
    requires if s.AtKeystore? then kb.LocalKeystore? else fb.LocalFilesystem?
    ensures ServedGranted(m, s)
  {
    AuthorityIsConfined(m, kb, fb, events, s);
    var actual := ActualManifest(m, kb, fb);
    if s.AtKeystore? {
      assert actual.keystoreKeys == m.keystoreKeys;
    } else {
      assert actual.filesystemFiles == m.filesystemFiles;
    }
  }

  /** No call a service takes up goes unlogged, and nothing else is logged: the pairs above are all there are. */
  lemma ServedIsLogged(h: HostState, e: Event)
    requires e.Method? && !e.call.Sign? ==> |e.call.aad| < 0x1_0000_0000
    ensures Step(h, e).0.served == h.served + (
              match e
              case Method(rep, call) =>
                var lengths := call.Sign? || (|call.nonce| == 24 && (call.Decrypt? ==> |call.tag| == 16));
                if KeyCap(h, rep).None? || KeyCap(h, rep).value.service != KeystoreService || !lengths then []
                else if KeystoreOf(h.keystore).None? then []
                else var a := ActualCap(h.keystore, KeyCap(h, rep).value); [AtKeystore(a.badge, a.key)]
              case FileRead(rep) =>
                if FileCap(h, rep).None? || FileCap(h, rep).value.service != FilesystemService then []
                else if StoreOf(h.filesystem).None? then []
                else var a := ActualFile(h.filesystem, FileCap(h, rep).value); [AtFilesystem(a.badge, a.file)]
              case FileWrite(rep, bytes) =>
                if FileCap(h, rep).None? || FileCap(h, rep).value.service != FilesystemService then []
                else if |bytes| > 256 || StoreOf(h.filesystem).None? then []
                else var a := ActualFile(h.filesystem, FileCap(h, rep).value); [AtFilesystem(a.badge, a.file)]
              case _ => [])
  {
    hide K.Serve, K.ServiceAnswer, WriteFile, ReadFile, K.GuestView, S.GuestRead, S.GuestWrite;
  }

  /** What a channel's service looks up for the channel's own badge. */
  function ChannelKey(ks: K.Keystore, badge: nat): Served {
    AtKeystore(badge, K.KeyOf(ks, badge))
  }

  function ChannelFile(st: S.Store, badge: nat): Served {
    AtFilesystem(badge, S.FileOf(st, badge))
  }

  /** A confined service is made to serve only its channel's own badge and that badge's own object,
      whatever the slots say. */
  lemma ConfinedServicesServeTheChannel(m: GrantManifest, kb: KeyBackend, fb: FileBackend,
                                        events: seq<Event>, s: Served)
    requires s in Run(New(m, kb, fb), events).served
    ensures s.AtKeystore? && kb.RemoteKeystore? ==> s == ChannelKey(kb.ks, kb.badge)
    ensures s.AtFilesystem? && fb.RemoteFilesystem? ==> s == ChannelFile(fb.st, fb.badge)
  {
    AuthorityIsConfined(m, kb, fb, events, s);
    hide Run, New;
    GrantsAreTheChannels(m, kb, fb, s);
  }

  /** All that the manifest a confined service really serves can name is its channel. */
  lemma GrantsAreTheChannels(m: GrantManifest, kb: KeyBackend, fb: FileBackend, s: Served)
    requires ServedGranted(ActualManifest(m, kb, fb), s)
    ensures s.AtKeystore? && kb.RemoteKeystore? ==> s == ChannelKey(kb.ks, kb.badge)
    ensures s.AtFilesystem? && fb.RemoteFilesystem? ==> s == ChannelFile(fb.st, fb.badge)
  {
    var actual := ActualManifest(m, kb, fb);
    if s.AtKeystore? {
      var cap := HostCapability(s.badge, s.key, KeystoreService);
      var i :| 0 <= i < |actual.keystoreKeys| && actual.keystoreKeys[i] == Some(cap);
    } else {
      var f := HostFile(s.badge, s.file, FilesystemService);
      var i :| 0 <= i < |actual.filesystemFiles| && actual.filesystemFiles[i] == Some(f);
    }
  }

  ghost predicate KeysStayInSlots(m: GrantManifest, kb: KeyBackend, fb: FileBackend) {
    forall events, s :: s in Run(New(m, kb, fb), events).served && s.AtKeystore? ==> ServedGranted(m, s)
  }

  ghost predicate FilesStayInSlots(m: GrantManifest, kb: KeyBackend, fb: FileBackend) {
    forall events, s :: s in Run(New(m, kb, fb), events).served && s.AtFilesystem? ==> ServedGranted(m, s)
  }

  predicate SomeKeySlot(m: GrantManifest) {
    exists i | 0 <= i < |m.keystoreKeys| && m.keystoreKeys[i].Some? ::
      m.keystoreKeys[i].value.service == KeystoreService
  }

  predicate SomeFileSlot(m: GrantManifest) {
    exists i | 0 <= i < |m.filesystemFiles| && m.filesystemFiles[i].Some? ::
      m.filesystemFiles[i].value.service == FilesystemService
  }

  /** A guest that opens the first usable slot and calls through it. */
  lemma FirstKeyCall(m: GrantManifest, ks: K.Keystore, badge: nat, fb: FileBackend) returns (events: seq<Event>)
    requires SomeKeySlot(m)
    ensures ChannelKey(ks, badge) in Run(New(m, RemoteKeystore(ks, badge), fb), events).served
  {
    var i :| 0 <= i < |m.keystoreKeys| && m.keystoreKeys[i].Some? && m.keystoreKeys[i].value.service == KeystoreService;
    var h := New(m, RemoteKeystore(ks, badge), fb);
    events := [KeyOpen(i, Some(0)), Method(0, K.Sign([]))];
    assert events[..1] == [KeyOpen(i, Some(0))] && events[..1][..0] == [];
    assert Run(h, events[..1]) == Step(Run(h, []), KeyOpen(i, Some(0))).0;
  }

  lemma FirstFileCall(m: GrantManifest, kb: KeyBackend, st: S.Store, badge: nat) returns (events: seq<Event>)
    requires SomeFileSlot(m)
    ensures ChannelFile(st, badge) in Run(New(m, kb, RemoteFilesystem(st, badge)), events).served
  {
    var i :| 0 <= i < |m.filesystemFiles| && m.filesystemFiles[i].Some?
             && m.filesystemFiles[i].value.service == FilesystemService;
    var h := New(m, kb, RemoteFilesystem(st, badge));
    events := [FileOpen(i, Some(0)), FileRead(0)];
    assert events[..1] == [FileOpen(i, Some(0))] && events[..1][..0] == [];
    assert Run(h, events[..1]) == Step(Run(h, []), FileOpen(i, Some(0))).0;
  }

  /** The manifest bounds what a confined service is made to serve exactly when the channel's own pair is
      one of its slots, or no slot can be used at all. */
  lemma ManifestBoundsTheChannelIff(m: GrantManifest, ks: K.Keystore, kbadge: nat, st: S.Store, fbadge: nat)
    ensures KeysStayInSlots(m, RemoteKeystore(ks, kbadge), RemoteFilesystem(st, fbadge))
            <==> ServedGranted(m, ChannelKey(ks, kbadge)) || !SomeKeySlot(m)
    ensures FilesStayInSlots(m, RemoteKeystore(ks, kbadge), RemoteFilesystem(st, fbadge))
            <==> ServedGranted(m, ChannelFile(st, fbadge)) || !SomeFileSlot(m)
  {
    var kb, fb := RemoteKeystore(ks, kbadge), RemoteFilesystem(st, fbadge);
    if SomeKeySlot(m) {
      var events := FirstKeyCall(m, ks, kbadge, fb);
    }
    if SomeFileSlot(m) {
      var events := FirstFileCall(m, kb, st, fbadge);
    }
    forall events, s | s in Run(New(m, kb, fb), events).served
      ensures s == if s.AtKeystore? then ChannelKey(ks, kbadge) else ChannelFile(st, fbadge)
      ensures if s.AtKeystore? then SomeKeySlot(m) else SomeFileSlot(m)
    {
      ConfinedServicesServeTheChannel(m, kb, fb, events, s);
      ServedNeedsASlot(m, kb, fb, events, s);
    }
  }

  lemma ServedNeedsASlot(m: GrantManifest, kb: KeyBackend, fb: FileBackend, events: seq<Event>, s: Served)
    requires s in Run(New(m, kb, fb), events).served
    ensures if s.AtKeystore? then SomeKeySlot(m) else SomeFileSlot(m)
  {
    AuthorityIsConfined(m, kb, fb, events, s);
    var actual := ActualManifest(m, kb, fb);
    if s.AtKeystore? {
      var cap := HostCapability(s.badge, s.key, KeystoreService);
      var i :| 0 <= i < |actual.keystoreKeys| && actual.keystoreKeys[i] == Some(cap);
      assert m.keystoreKeys[i].Some?;
    } else {
      var f := HostFile(s.badge, s.file, FilesystemService);
      var i :| 0 <= i < |actual.filesystemFiles| && actual.filesystemFiles[i] == Some(f);
      assert m.filesystemFiles[i].Some?;
    }
  }

  // ----- Files -----

  /** `e` is a write to `file` that the guest saw accepted. */
  predicate AcceptedWrite(h: HostState, e: Event, file: nat) {
    && e.FileWrite?
    && Step(h, e).1 == WriteResult(Ok(()))
    && FileCap(h, e.rep).Some?
    && ActualFile(h.filesystem, FileCap(h, e.rep).value).file == file
  }

  /** The bytes of the last accepted write to `file`, or what the file began with. */
  function LastAccepted(h: HostState, events: seq<Event>, file: nat): seq<byte> {
    if events == [] then (if StoreOf(h.filesystem).None? then [] else S.Content(StoreOf(h.filesystem).value, file)) else
    var front, e := events[..|events| - 1], events[|events| - 1];
    if AcceptedWrite(Run(h, front), e, file) then e.bytes else LastAccepted(h, front, file)
  }

  ghost predicate SoundFiles(h: HostState) {
    h.filesystem.NoFilesystem? || S.Sound(StoreOf(h.filesystem).value)
  }

  lemma WriteBackend(b: FileBackend, f: HostFile, bytes: seq<byte>, file: nat)
    requires !b.NoFilesystem? && S.Sound(StoreOf(b).value)
    ensures var (b', r) := WriteFile(b, f, bytes);
            && !b'.NoFilesystem?
            && S.Sound(StoreOf(b').value)
            && S.Content(StoreOf(b').value, file) ==
               if S.GuestWrite(r) == Ok(()) && ActualFile(b, f).file == file then bytes
               else S.Content(StoreOf(b).value, file)
  {
    var st := StoreOf(b).value;
    hide S.Content, S.Sound;
    S.WriteIsContent(st, f.badge, f.file, bytes);
    if b.RemoteFilesystem? {
      S.WriteIsContent(st, b.badge, S.FileOf(st, b.badge), bytes);
    }
  }

  /** One step changes the content of at most the file an accepted write was for, and only to the
      bytes written. */
  lemma StepFiles(h: HostState, e: Event, file: nat)
    requires SoundFiles(h) && !h.filesystem.NoFilesystem?
    ensures var h' := Step(h, e).0;
            && SoundFiles(h') && !h'.filesystem.NoFilesystem?
            && S.Content(StoreOf(h'.filesystem).value, file) ==
               if AcceptedWrite(h, e, file) then e.bytes else S.Content(StoreOf(h.filesystem).value, file)
  {
    hide S.Content, S.Sound, WriteFile;
    match e
    case FileWrite(rep, bytes) =>
      if FileCap(h, rep).Some? {
        WriteBackend(h.filesystem, FileCap(h, rep).value, bytes, file);
      }
    case RevokeFile(badge) => RevokeKeepsContent(StoreOf(h.filesystem).value, badge, file);
    case _ =>
  }

  lemma RevokeKeepsContent(st: S.Store, badge: nat, file: nat)
    requires S.Sound(st)
    ensures S.Sound(S.Revoke(st, badge)) && S.Content(S.Revoke(st, badge), file) == S.Content(st, file)
  {
    assert forall f :: S.Content(S.Revoke(st, badge), f) == S.Content(st, f);
  }

  lemma {:induction false} RunFiles(h: HostState, events: seq<Event>, file: nat)
    requires SoundFiles(h) && !h.filesystem.NoFilesystem?
    ensures SoundFiles(Run(h, events)) && !Run(h, events).filesystem.NoFilesystem?
    ensures S.Content(StoreOf(Run(h, events).filesystem).value, file) == LastAccepted(h, events, file)
  {
    hide Step, SoundFiles;
    if events != [] {
      RunFiles(h, events[..|events| - 1], file);
      StepFiles(Run(h, events[..|events| - 1]), events[|events| - 1], file);
    }
  }

  /** The filesystem is a map from file to one block: over any calls through any number of handles, a
      read that succeeds returns the last write to that file the guest saw accepted, and never more
      than a block. */
  lemma ReadsReturnLastAcceptedWrite(h: HostState, events: seq<Event>, rep: nat, bytes: seq<byte>)
    requires SoundFiles(h) && !h.filesystem.NoFilesystem?
    requires Step(Run(h, events), FileRead(rep)).1 == ReadResult(Ok(bytes))
    ensures var t := Run(h, events);
            && FileCap(t, rep).Some?
            && bytes == LastAccepted(h, events, ActualFile(t.filesystem, FileCap(t, rep).value).file)
            && |bytes| <= S.MAX_BLOCK_LEN
  {
    hide Run, Step, LastAccepted, ActualFile, S.Content, S.Sound;
    RunFiles(h, events, 0);
    var t := Run(h, events);
    GoodReadIsContent(t, rep, bytes);
    RunFiles(h, events, ActualFile(t.filesystem, FileCap(t, rep).value).file);
  }

  /** A read that succeeds returns the file's content. */
  lemma GoodReadIsContent(t: HostState, rep: nat, bytes: seq<byte>)
    requires SoundFiles(t) && !t.filesystem.NoFilesystem? && Step(t, FileRead(rep)).1 == ReadResult(Ok(bytes))
    ensures FileCap(t, rep).Some?
    ensures bytes == S.Content(StoreOf(t.filesystem).value, ActualFile(t.filesystem, FileCap(t, rep).value).file)
    ensures |bytes| <= S.MAX_BLOCK_LEN
  {
    var f := FileCap(t, rep).value;
    var file := ActualFile(t.filesystem, f).file;
    var st := StoreOf(t.filesystem).value;
    S.ReadIsContent(st, f.badge, f.file);
    if t.filesystem.RemoteFilesystem? {
      S.ReadIsContent(st, t.filesystem.badge, file);
    }
    ContentFits(st, file);
  }

  lemma ContentFits(st: S.Store, file: nat)
    requires S.Sound(st)
    ensures |S.Content(st, file)| <= S.MAX_BLOCK_LEN
  {
  }

  /** A file that no filled slot is really served under keeps its content over every run. */
  lemma {:induction false} UnnamedFilesKeepTheirContent(m: GrantManifest, kb: KeyBackend, fb: FileBackend,
                                                        events: seq<Event>, file: nat)
    requires StoreOf(fb).Some? && S.Sound(StoreOf(fb).value)
    requires forall f :: Some(f) in ActualManifest(m, kb, fb).filesystemFiles ==> f.file != file
    ensures LastAccepted(New(m, kb, fb), events, file) == S.Content(StoreOf(fb).value, file)
    ensures StoreOf(Run(New(m, kb, fb), events).filesystem).Some?
    ensures S.Content(StoreOf(Run(New(m, kb, fb), events).filesystem).value, file) == S.Content(StoreOf(fb).value, file)
  {
    var h := New(m, kb, fb);
    RunFiles(h, events, file);
    if events != [] {
      var front, e := events[..|events| - 1], events[|events| - 1];
      UnnamedFilesKeepTheirContent(m, kb, fb, front, file);
      RunKeepsConfined(m, kb, fb, front);
      var mid := Run(h, front);
      hide Step, Run;
      if AcceptedWrite(mid, e, file) {
        var f := FileCap(mid, e.rep).value;
        assert EntryGranted(mid, mid.table[e.rep]);
        FileGranted(m, kb, fb, f);
      }
    }
  }

  lemma {:induction false} RunConcat(h: HostState, a: seq<Event>, b: seq<Event>)
    ensures Run(h, a + b) == Run(Run(h, a), b)
    decreases |b|
  {
    if b == [] {
      assert a + b == a;
    } else {
      assert (a + b)[..|a + b| - 1] == a + b[..|b| - 1];
      RunConcat(h, a, b[..|b| - 1]);
    }
  }

  /** An oversized write, wherever a run makes it and through whatever handle, might as well not have been
      made: it is refused, and every later state is the same without it. */
  lemma OversizedWriteLeavesNoTrace(h: HostState, before: seq<Event>, rep: nat, bytes: seq<byte>, after: seq<Event>)
    requires |bytes| > S.MAX_BLOCK_LEN
    ensures Run(h, before + [FileWrite(rep, bytes)] + after) == Run(h, before + after)
    ensures var f := FileCap(Run(h, before), rep);
            ReplyAt(h, before + [FileWrite(rep, bytes)], |before|) ==
            WriteResult(Err(if f.Some? && f.value.service == FilesystemService then K.Invalid else K.Access))
  {
    var all := before + [FileWrite(rep, bytes)];
    assert all[..|before|] == before;
    RunConcat(h, all, after);
    RunConcat(h, before, after);
  }

  /** The same for one write. */
  lemma OversizedWriteChangesNothing(h: HostState, rep: nat, bytes: seq<byte>)
    requires |bytes| > S.MAX_BLOCK_LEN
    ensures Step(h, FileWrite(rep, bytes)).0 == h
    ensures FileCap(h, rep).Some? && FileCap(h, rep).value.service == FilesystemService
            ==> Step(h, FileWrite(rep, bytes)).1 == WriteResult(Err(K.Invalid))
  {
  }

  // ----- Revocation -----

  /** The keystore honours nothing under `badge`. */
  predicate DeadKeyBadge(b: KeyBackend, badge: nat) {
    KeystoreOf(b).Some? ==>
      badge in KeystoreOf(b).value.grants ==> KeystoreOf(b).value.grants[badge].revoked
  }

  predicate DeadFileBadge(b: FileBackend, badge: nat) {
    StoreOf(b).Some? ==> badge in StoreOf(b).value.grants ==> StoreOf(b).value.grants[badge].revoked
  }

  predicate ChannelKept(h: HostState, h': HostState) {
    && (h.keystore.RemoteKeystore? <==> h'.keystore.RemoteKeystore?)
    && (h.keystore.RemoteKeystore? ==> h'.keystore.badge == h.keystore.badge)
    && (h.filesystem.RemoteFilesystem? <==> h'.filesystem.RemoteFilesystem?)
    && (h.filesystem.RemoteFilesystem? ==> h'.filesystem.badge == h.filesystem.badge)
  }

  lemma {:induction false} RevokedStaysDead(h: HostState, events: seq<Event>, badge: nat)
    ensures DeadKeyBadge(h.keystore, badge) ==> DeadKeyBadge(Run(h, events).keystore, badge)
    ensures DeadFileBadge(h.filesystem, badge) ==> DeadFileBadge(Run(h, events).filesystem, badge)
    ensures ChannelKept(h, Run(h, events))
  {
    if events != [] {
      RevokedStaysDead(h, events[..|events| - 1], badge);
      StepKeepsDead(Run(h, events[..|events| - 1]), events[|events| - 1], badge);
    }
  }

  lemma StepKeepsDead(h: HostState, e: Event, badge: nat)
    ensures DeadKeyBadge(h.keystore, badge) ==> DeadKeyBadge(Step(h, e).0.keystore, badge)
    ensures DeadFileBadge(h.filesystem, badge) ==> DeadFileBadge(Step(h, e).0.filesystem, badge)
    ensures ChannelKept(h, Step(h, e).0)
  {
  }

  lemma DeadKeyReadsAccess(h: HostState, badge: nat, rep: nat, call: K.KeyCall)
    requires DeadKeyBadge(h.keystore, badge) && I.Encodable(call)
    requires KeyCap(h, rep).Some? && ActualCap(h.keystore, KeyCap(h, rep).value).badge == badge
    ensures Step(h, Method(rep, call)).1 == KeyResult(Err(K.Access))
  {
    hide CallKeystore, DeadKeyBadge, K.GuestView;
    if !h.keystore.NoKeystore? {
      DeadCallIsRefused(h.keystore, KeyCap(h, rep).value, badge, call);
    }
  }

  lemma DeadCallIsRefused(b: KeyBackend, cap: HostCapability, badge: nat, call: K.KeyCall)
    requires DeadKeyBadge(b, badge) && I.Encodable(call) && !b.NoKeystore? && ActualCap(b, cap).badge == badge
    ensures CallKeystore(b, cap, call).Returned? && K.GuestView(CallKeystore(b, cap, call).result) == Err(K.Access)
  {
    hide I.Encodable, I.RequestBytes, K.ServiceAnswer, K.DecodeCall;
    if b.RemoteKeystore? {
      I.DeadCallReadsDenied(b.ks, badge, call);
    }
  }

  /** Once a key badge is revoked, whatever the guest does next, every well-formed call through a
      handle that uses it ends `access`. */
  lemma RevokedKeyIsFinal(h: HostState, badge: nat, events: seq<Event>, rep: nat, call: K.KeyCall)
    requires I.Encodable(call)
    requires var t := Run(Step(h, RevokeKey(badge)).0, events);
             KeyCap(t, rep).Some? && ActualCap(t.keystore, KeyCap(t, rep).value).badge == badge
    ensures Step(Run(Step(h, RevokeKey(badge)).0, events), Method(rep, call)).1 == KeyResult(Err(K.Access))
  {
    RevokedStaysDead(Step(h, RevokeKey(badge)).0, events, badge);
    DeadKeyReadsAccess(Run(Step(h, RevokeKey(badge)).0, events), badge, rep, call);
  }

  lemma DeadFileReadsAccess(h: HostState, badge: nat, rep: nat, bytes: seq<byte>)
    requires DeadFileBadge(h.filesystem, badge) && |bytes| <= S.MAX_BLOCK_LEN
    requires FileCap(h, rep).Some? && ActualFile(h.filesystem, FileCap(h, rep).value).badge == badge
    ensures Step(h, FileRead(rep)).1 == ReadResult(Err(K.Access))
    ensures Step(h, FileWrite(rep, bytes)).1 == WriteResult(Err(K.Access))
  {
  }

  /** The same for files: every read, and every write a block can hold. */
  lemma RevokedFileIsFinal(h: HostState, badge: nat, events: seq<Event>, rep: nat, bytes: seq<byte>)
    requires |bytes| <= S.MAX_BLOCK_LEN
    requires var t := Run(Step(h, RevokeFile(badge)).0, events);
             FileCap(t, rep).Some? && ActualFile(t.filesystem, FileCap(t, rep).value).badge == badge
    ensures var t := Run(Step(h, RevokeFile(badge)).0, events);
            && Step(t, FileRead(rep)).1 == ReadResult(Err(K.Access))
            && Step(t, FileWrite(rep, bytes)).1 == WriteResult(Err(K.Access))
  {
    RevokedStaysDead(Step(h, RevokeFile(badge)).0, events, badge);
    DeadFileReadsAccess(Run(Step(h, RevokeFile(badge)).0, events), badge, rep, bytes);
  }

  // ----- Sealing across calls -----

  /** All that serving `badge` depends on: its channel, the primitives, the keys and the badge's own grant. */
  ghost predicate SameService(b: KeyBackend, b': KeyBackend, badge: nat) {
    && KeystoreOf(b).Some? && KeystoreOf(b').Some?
    && (b.RemoteKeystore? <==> b'.RemoteKeystore?)
    && (b.RemoteKeystore? ==> b'.badge == b.badge)
    && var ks, ks' := KeystoreOf(b).value, KeystoreOf(b').value;
       && ks'.primitives == ks.primitives && ks'.keys == ks.keys
       && (badge in ks'.grants <==> badge in ks.grants)
       && (badge in ks.grants ==> ks'.grants[badge] == ks.grants[badge])
  }

  lemma StepKeepsService(h: HostState, e: Event, badge: nat)
    requires KeystoreOf(h.keystore).Some? && e != RevokeKey(badge)
    ensures SameService(h.keystore, Step(h, e).0.keystore, badge)
  {
  }

  /** Revoking other badges leaves a badge's own service as it was. */
  lemma {:induction false} RunKeepsService(h: HostState, events: seq<Event>, badge: nat)
    requires KeystoreOf(h.keystore).Some? && RevokeKey(badge) !in events
    ensures SameService(h.keystore, Run(h, events).keystore, badge)
  {
    hide Step;
    if events != [] {
      RunKeepsService(h, events[..|events| - 1], badge);
      assert events[|events| - 1] in events;
      StepKeepsService(Run(h, events[..|events| - 1]), events[|events| - 1], badge);
    }
  }

  /** What a guest sealed through one handle it can open through any handle on the same capability,
      later and across either kind of keystore, while the badge may decrypt and is not itself revoked. */
  lemma SealedDataOpens(h: HostState, rep: nat, nonce: seq<byte>, aad: seq<byte>, plaintext: seq<byte>,
                        ciphertext: seq<byte>, tag: seq<byte>, events: seq<Event>, rep': nat)
    requires !h.keystore.NoKeystore? && K.Lawful(KeystoreOf(h.keystore).value.primitives)
    requires I.Encodable(K.Encrypt(nonce, aad, plaintext))
    requires Step(h, Method(rep, K.Encrypt(nonce, aad, plaintext))).1 == KeyResult(Ok(K.Encrypted(ciphertext, tag)))
    requires RevokeKey(ActualCap(h.keystore, KeyCap(h, rep).value).badge) !in events
    requires var t := Run(Step(h, Method(rep, K.Encrypt(nonce, aad, plaintext))).0, events);
             KeyCap(t, rep') == KeyCap(h, rep)
    requires var actual := ActualCap(h.keystore, KeyCap(h, rep).value);
             K.Authorize(KeystoreOf(h.keystore).value, actual.badge, actual.key, K.DECRYPT).Ok?
    ensures var t := Run(Step(h, Method(rep, K.Encrypt(nonce, aad, plaintext))).0, events);
            Step(t, Method(rep', K.Decrypt(nonce, aad, ciphertext, tag))).1 == KeyResult(Ok(K.Decrypted(plaintext)))
  {
    var h1 := Step(h, Method(rep, K.Encrypt(nonce, aad, plaintext))).0;
    var cap := KeyCap(h, rep).value;
    var actual := ActualCap(h.keystore, cap);
    RunKeepsService(h1, events, actual.badge);
    hide Run, K.Lawful, CallKeystore;
    var t := Run(h1, events);
    SealedCallOpens(h.keystore, t.keystore, cap, nonce, aad, plaintext, ciphertext, tag);
  }

  /** The same for the two calls themselves, on backends that serve the capability alike. */
  lemma SealedCallOpens(b: KeyBackend, b': KeyBackend, cap: HostCapability, nonce: seq<byte>, aad: seq<byte>,
                        plaintext: seq<byte>, ciphertext: seq<byte>, tag: seq<byte>)
    requires KeystoreOf(b).Some? && K.Lawful(KeystoreOf(b).value.primitives)
    requires SameService(b, b', ActualCap(b, cap).badge)
    requires I.Encodable(K.Encrypt(nonce, aad, plaintext))
    requires CallKeystore(b, cap, K.Encrypt(nonce, aad, plaintext)).Returned?
    requires K.GuestView(CallKeystore(b, cap, K.Encrypt(nonce, aad, plaintext)).result)
             == Ok(K.Encrypted(ciphertext, tag))
    requires var actual := ActualCap(b, cap);
             K.Authorize(KeystoreOf(b).value, actual.badge, actual.key, K.DECRYPT).Ok?
    ensures I.Typed(K.Decrypt(nonce, aad, ciphertext, tag))
    ensures CallKeystore(b', cap, K.Decrypt(nonce, aad, ciphertext, tag)).Returned?
    ensures K.GuestView(CallKeystore(b', cap, K.Decrypt(nonce, aad, ciphertext, tag)).result)
            == Ok(K.Decrypted(plaintext))
  {
    var ks, ks', actual := KeystoreOf(b).value, KeystoreOf(b').value, ActualCap(b, cap);
    ServedAt(b, cap, K.Encrypt(nonce, aad, plaintext));
    SealThenUnseal(ks, actual.badge, actual.key, nonce, aad, plaintext);
    ServedAt(b', cap, K.Decrypt(nonce, aad, ciphertext, tag));
    SameAnswer(ks, ks', actual.badge, actual.key, K.Decrypt(nonce, aad, ciphertext, tag));
  }

  /** A call through either kind of keystore is the service's own answer under the actual capability. */
  lemma ServedAt(b: KeyBackend, cap: HostCapability, call: K.KeyCall)
    requires KeystoreOf(b).Some? && K.Lawful(KeystoreOf(b).value.primitives)
    ensures I.Encodable(call) ==> CallKeystore(b, cap, call).Returned?
    ensures I.Encodable(call) ==>
              K.GuestView(CallKeystore(b, cap, call).result) ==
              K.GuestView(K.Serve(KeystoreOf(b).value, ActualCap(b, cap).badge, ActualCap(b, cap).key, call))
  {
    hide K.Lawful, K.Serve;
    if b.RemoteKeystore? && I.Encodable(call) {
      I.RemoteRefinesLocal(b.ks, b.badge, K.KeyOf(b.ks, b.badge), call);
    }
  }

  lemma SameAnswer(ks: K.Keystore, ks': K.Keystore, badge: nat, key: nat, call: K.KeyCall)
    requires ks'.primitives == ks.primitives && ks'.keys == ks.keys
    requires badge in ks'.grants <==> badge in ks.grants
    requires badge in ks.grants ==> ks'.grants[badge] == ks.grants[badge]
    ensures K.Serve(ks', badge, key, call) == K.Serve(ks, badge, key, call)
  {
  }

  lemma SealThenUnseal(ks: K.Keystore, badge: nat, key: nat, nonce: seq<byte>, aad: seq<byte>, plaintext: seq<byte>)
    requires K.Lawful(ks.primitives) && K.Authorize(ks, badge, key, K.DECRYPT).Ok?
    ensures match K.Serve(ks, badge, key, K.Encrypt(nonce, aad, plaintext))
            case Ok(reply) =>
              && reply.Encrypted? && |reply.tag| == 16
              && K.Serve(ks, badge, key, K.Decrypt(nonce, aad, reply.ciphertext, reply.tag))
                 == Ok(K.Decrypted(plaintext))
            case Err(_) => true
  {
  }

  // ----- Linking -----

  /** Each resource is linked exactly when the manifest declares a slot of it, filled or not, and the clock
      exactly when it is granted, whichever of the others are. */
  lemma LinkedIffDeclared(m: GrantManifest)
    ensures Keystore in BuildLinker(m) <==> |m.keystoreKeys| > 0
    ensures Filesystem in BuildLinker(m) <==> |m.filesystemFiles| > 0
    ensures Clock in BuildLinker(m) <==> m.monotonicClock.Some?
  {
  }

  /** A component built against a manifest can call a clock only if the manifest has one, so in a
      state built from the same manifest no call it can make meets a missing clock. */
  lemma LinkedClockAlwaysAnswers(m: GrantManifest, kb: KeyBackend, fb: FileBackend,
      events: seq<Event>, i: nat)
    requires i < |events|
    requires InterfaceOf(events[i]) == Some(Clock) && Clock in BuildLinker(m)
    ensures ReplyAt(New(m, kb, fb), events, i).Time?
  {
    ClockKept(New(m, kb, fb), events[..i]);
  }

  /** Whatever was called before, `now` reads the manifest's clock and `resolution` its resolution. */
  lemma ClockReplies(m: GrantManifest, kb: KeyBackend, fb: FileBackend, events: seq<Event>)
    ensures var t := Run(New(m, kb, fb), events);
            && Step(t, ClockNow) ==
               (t, if m.monotonicClock.None? then Trap else Time(m.monotonicClock.value.nowNs))
            && Step(t, ClockResolution) ==
               (t, if m.monotonicClock.None? then Trap else Time(m.monotonicClock.value.resolutionNs))
  {
    ClockKept(New(m, kb, fb), events);
  }

  lemma {:induction false} ClockKept(h: HostState, events: seq<Event>)
    ensures Run(h, events).clock == h.clock
  {
    if events != [] {
      ClockKept(h, events[..|events| - 1]);
    }
  }
}
