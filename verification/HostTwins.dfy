/** A confined host and its in-process twin: the same calls, the same answers, the same work done by the
    services, for every manifest. */
module HostTwins {
  import opened Prelude
  import opened Host
  import opened HostRuns
  import K = Keystore
  import I = IpcKeystore
  import S = Store

  /** The service itself, without its channel. */
  function LocalKey(b: KeyBackend): KeyBackend {
    match b
    case RemoteKeystore(ks, _) => LocalKeystore(ks)
    case _ => b
  }

  function LocalFile(b: FileBackend): FileBackend {
    match b
    case RemoteFilesystem(st, _) => LocalFilesystem(st)
    case _ => b
  }

  function ActualEntry(kb: KeyBackend, fb: FileBackend, e: Entry): Entry {
    match e
    case KeyEntry(cap) => KeyEntry(ActualCap(kb, cap))
    case FileEntry(f) => FileEntry(ActualFile(fb, f))
  }

  function ActualTable(kb: KeyBackend, fb: FileBackend, table: map<nat, Entry>): map<nat, Entry> {
    map rep | rep in table :: ActualEntry(kb, fb, table[rep])
  }

  ghost predicate Lawful(kb: KeyBackend, fb: FileBackend) {
    && (KeystoreOf(kb).Some? ==> K.Lawful(KeystoreOf(kb).value.primitives))
    && (StoreOf(fb).Some? ==> S.Sound(StoreOf(fb).value))
  }

  /** `l` is `r` with its services in process and every record naming what it is really served under. */
  ghost predicate Twins(l: HostState, r: HostState) {
    && l.keys == Actuals(r.keys, cap => ActualCap(r.keystore, cap))
    && l.files == Actuals(r.files, f => ActualFile(r.filesystem, f))
    && l.table == ActualTable(r.keystore, r.filesystem, r.table)
    && l.keystore == LocalKey(r.keystore) && l.filesystem == LocalFile(r.filesystem)
    && l.clock == r.clock && l.served == r.served
    && Lawful(r.keystore, r.filesystem)
  }

  /** A method's aad fits its length prefix: true of any list a 32-bit guest can hold. */
  predicate Deliverable(e: Event) {
    e.Method? && !e.call.Sign? ==> |e.call.aad| < 0x1_0000_0000
  }

  // ----- One step -----

  lemma PushTwins(l: HostState, r: HostState, e: Entry, pick: Option<nat>)
    requires Twins(l, r)
    ensures var e' := ActualEntry(r.keystore, r.filesystem, e);
            Twins(Push(l, e', pick).0, Push(r, e, pick).0) && Push(l, e', pick).1 == Push(r, e, pick).1
  {
    hide Lawful, ActualEntry, LocalKey, LocalFile, Actuals;
  }

  lemma KeyOpenTwins(l: HostState, r: HostState, slot: nat, pick: Option<nat>)
    requires Twins(l, r)
    ensures Twins(Step(l, KeyOpen(slot, pick)).0, Step(r, KeyOpen(slot, pick)).0)
    ensures Step(l, KeyOpen(slot, pick)).1 == Step(r, KeyOpen(slot, pick)).1
  {
    hide Lawful, ActualCap, ActualFile, LocalKey, LocalFile, Push;
    if Slot(r.keys, slot).Some? {
      PushTwins(l, r, KeyEntry(r.keys[slot].value), pick);
    }
  }

  lemma FileOpenTwins(l: HostState, r: HostState, slot: nat, pick: Option<nat>)
    requires Twins(l, r)
    ensures Twins(Step(l, FileOpen(slot, pick)).0, Step(r, FileOpen(slot, pick)).0)
    ensures Step(l, FileOpen(slot, pick)).1 == Step(r, FileOpen(slot, pick)).1
  {
    hide Lawful, ActualCap, ActualFile, LocalKey, LocalFile, Push;
    if Slot(r.files, slot).Some? {
      PushTwins(l, r, FileEntry(r.files[slot].value), pick);
    }
  }

  lemma DropTwins(l: HostState, r: HostState, rep: nat)
    requires Twins(l, r)
    ensures Twins(Step(l, KeyDrop(rep)).0, Step(r, KeyDrop(rep)).0)
    ensures Step(l, KeyDrop(rep)).1 == Step(r, KeyDrop(rep)).1
    ensures Twins(Step(l, FileDrop(rep)).0, Step(r, FileDrop(rep)).0)
    ensures Step(l, FileDrop(rep)).1 == Step(r, FileDrop(rep)).1
  {
    hide Lawful, ActualCap, ActualFile, LocalKey, LocalFile;
  }

  /** The trait call itself: over the channel, or in process under what the channel serves. */
  lemma CallTwins(b: KeyBackend, cap: HostCapability, call: K.KeyCall)
    requires KeystoreOf(b).Some? && K.Lawful(KeystoreOf(b).value.primitives) && I.Encodable(call)
    ensures CallKeystore(b, cap, call).Returned? && CallKeystore(LocalKey(b), ActualCap(b, cap), call).Returned?
    ensures K.GuestView(CallKeystore(b, cap, call).result)
            == K.GuestView(CallKeystore(LocalKey(b), ActualCap(b, cap), call).result)
  {
    if b.RemoteKeystore? {
      I.RemoteRefinesLocal(b.ks, b.badge, K.KeyOf(b.ks, b.badge), call);
    }
  }

  lemma CapTwins(l: HostState, r: HostState, rep: nat)
    requires Twins(l, r)
    ensures KeyCap(l, rep) == if KeyCap(r, rep).None? then None else Some(ActualCap(r.keystore, KeyCap(r, rep).value))
    ensures FileCap(l, rep) ==
            if FileCap(r, rep).None? then None else Some(ActualFile(r.filesystem, FileCap(r, rep).value))
  {
  }

  lemma KeyMethodTwins(l: HostState, r: HostState, rep: nat, call: K.KeyCall)
    requires Twins(l, r) && Deliverable(Method(rep, call))
    ensures Twins(KeyMethod(l, rep, call).0, KeyMethod(r, rep, call).0)
    ensures KeyMethod(l, rep, call).1 == KeyMethod(r, rep, call).1
  {
    hide CallKeystore, K.Lawful, S.Sound, KeyCap;
    CapTwins(l, r, rep);
    if KeyCap(r, rep).Some? && I.Typed(call) && !r.keystore.NoKeystore? {
      CallTwins(r.keystore, KeyCap(r, rep).value, call);
    }
  }

  lemma ReadTwins(b: FileBackend, f: HostFile)
    requires StoreOf(b).Some? && S.Sound(StoreOf(b).value)
    ensures S.GuestRead(ReadFile(b, f)) == S.GuestRead(ReadFile(LocalFile(b), ActualFile(b, f)))
  {
    if b.RemoteFilesystem? {
      S.RemoteRefinesLocal(b.st, b.badge, S.FileOf(b.st, b.badge), []);
    }
  }

  lemma FileReadTwins(l: HostState, r: HostState, rep: nat)
    requires Twins(l, r)
    ensures Twins(FileReadMethod(l, rep).0, FileReadMethod(r, rep).0)
    ensures FileReadMethod(l, rep).1 == FileReadMethod(r, rep).1
  {
    hide ReadFile, K.Lawful, S.Sound, FileCap;
    CapTwins(l, r, rep);
    if FileCap(r, rep).Some? && !r.filesystem.NoFilesystem? {
      ReadTwins(r.filesystem, FileCap(r, rep).value);
    }
  }

  lemma WriteTwins(b: FileBackend, f: HostFile, bytes: seq<byte>)
    requires StoreOf(b).Some? && S.Sound(StoreOf(b).value)
    ensures var (b', result) := WriteFile(b, f, bytes);
            var (l', local) := WriteFile(LocalFile(b), ActualFile(b, f), bytes);
            && l' == LocalFile(b') && S.GuestWrite(local) == S.GuestWrite(result)
            && StoreOf(b').Some? && S.Sound(StoreOf(b').value)
            && forall g :: ActualFile(b', g) == ActualFile(b, g)
  {
    hide S.Sound, S.CheckAccess;
    var actual := ActualFile(b, f);
    S.WriteIsContent(StoreOf(b).value, actual.badge, actual.file, bytes);
    if b.RemoteFilesystem? {
      S.RemoteRefinesLocal(b.st, b.badge, actual.file, bytes);
    }
  }

  lemma FileWriteTwins(l: HostState, r: HostState, rep: nat, bytes: seq<byte>)
    requires Twins(l, r)
    ensures Twins(FileWriteMethod(l, rep, bytes).0, FileWriteMethod(r, rep, bytes).0)
    ensures FileWriteMethod(l, rep, bytes).1 == FileWriteMethod(r, rep, bytes).1
  {
    hide WriteFile, K.Lawful, S.Sound, FileCap;
    CapTwins(l, r, rep);
    if FileCap(r, rep).Some? && !r.filesystem.NoFilesystem? {
      WriteTwins(r.filesystem, FileCap(r, rep).value, bytes);
      SameFiles(l, r, WriteFile(r.filesystem, FileCap(r, rep).value, bytes).0);
    }
  }

  /** The records a twin holds depend on the backend only through what it serves handles under. */
  lemma SameFiles(l: HostState, r: HostState, b: FileBackend)
    requires Twins(l, r) && forall f :: ActualFile(b, f) == ActualFile(r.filesystem, f)
    ensures l.files == Actuals(r.files, f => ActualFile(b, f))
    ensures l.table == ActualTable(r.keystore, b, r.table)
  {
  }

  lemma RevokeKeyTwins(l: HostState, r: HostState, badge: nat)
    requires Twins(l, r)
    ensures Twins(Step(l, RevokeKey(badge)).0, Step(r, RevokeKey(badge)).0)
  {
    hide K.Lawful, S.Sound;
    var b := RevokeKeyAt(r.keystore, badge);
    forall cap ensures ActualCap(b, cap) == ActualCap(r.keystore, cap) {
    }
    SameKeys(l, r, b);
  }

  lemma SameKeys(l: HostState, r: HostState, b: KeyBackend)
    requires Twins(l, r) && forall cap :: ActualCap(b, cap) == ActualCap(r.keystore, cap)
    ensures l.keys == Actuals(r.keys, cap => ActualCap(b, cap))
    ensures l.table == ActualTable(b, r.filesystem, r.table)
  {
  }

  lemma RevokeFileTwins(l: HostState, r: HostState, badge: nat)
    requires Twins(l, r)
    ensures Twins(Step(l, RevokeFile(badge)).0, Step(r, RevokeFile(badge)).0)
  {
    hide K.Lawful, S.Sound;
    var b := RevokeFileAt(r.filesystem, badge);
    forall f ensures ActualFile(b, f) == ActualFile(r.filesystem, f) {
    }
    SameFiles(l, r, b);
    if StoreOf(r.filesystem).Some? {
      RevokeKeepsContent(StoreOf(r.filesystem).value, badge, 0);
    }
  }

  lemma ClockTwins(l: HostState, r: HostState)
    requires Twins(l, r)
    ensures Step(l, ClockNow) == (l, Step(r, ClockNow).1) && Step(r, ClockNow).0 == r
    ensures Step(l, ClockResolution) == (l, Step(r, ClockResolution).1) && Step(r, ClockResolution).0 == r
  {
  }

  lemma StepTwins(l: HostState, r: HostState, e: Event)
    requires Twins(l, r) && Deliverable(e)
    ensures Twins(Step(l, e).0, Step(r, e).0) && Step(l, e).1 == Step(r, e).1
  {
    hide Twins, Push, KeyCap, FileCap, KeyMethod, FileReadMethod, FileWriteMethod, RevokeKeyAt, RevokeFileAt;
    match e
    case KeyOpen(slot, pick) => KeyOpenTwins(l, r, slot, pick);
    case Method(rep, call) => KeyMethodTwins(l, r, rep, call);
    case KeyDrop(rep) => DropTwins(l, r, rep);
    case FileOpen(slot, pick) => FileOpenTwins(l, r, slot, pick);
    case FileRead(rep) => FileReadTwins(l, r, rep);
    case FileWrite(rep, bytes) => FileWriteTwins(l, r, rep, bytes);
    case FileDrop(rep) => DropTwins(l, r, rep);
    case RevokeKey(badge) => RevokeKeyTwins(l, r, badge);
    case RevokeFile(badge) => RevokeFileTwins(l, r, badge);
    case ClockNow => ClockTwins(l, r);
    case ClockResolution => ClockTwins(l, r);
  }

  // ----- Whole runs -----

  lemma {:induction false} RunTwins(l: HostState, r: HostState, events: seq<Event>)
    requires Twins(l, r) && forall e :: e in events ==> Deliverable(e)
    ensures Twins(Run(l, events), Run(r, events))
  {
    hide Twins, Step;
    if events != [] {
      RunTwins(l, r, events[..|events| - 1]);
      StepTwins(Run(l, events[..|events| - 1]), Run(r, events[..|events| - 1]), events[|events| - 1]);
    }
  }

  /** For every manifest, whatever its slots name, and every sequence of calls, handle openings, drops and
      revocations, a host over its channels answers as a host over the services themselves whose filled
      slots name what the channels serve, and its services do the same work, provided no transport
      fails. */
  lemma ConfinedServicesAreIndistinguishable(m: GrantManifest, kb: KeyBackend, fb: FileBackend,
                                             events: seq<Event>, i: nat)
    requires Lawful(kb, fb)
    requires i < |events| && forall e :: e in events ==> Deliverable(e)
    ensures ReplyAt(New(m, kb, fb), events, i)
            == ReplyAt(New(ActualManifest(m, kb, fb), LocalKey(kb), LocalFile(fb)), events, i)
    ensures Run(New(m, kb, fb), events).served
            == Run(New(ActualManifest(m, kb, fb), LocalKey(kb), LocalFile(fb)), events).served
  {
    var r, l := New(m, kb, fb), New(ActualManifest(m, kb, fb), LocalKey(kb), LocalFile(fb));
    NewTwins(m, kb, fb);
    RunTwins(l, r, events);
    ServedAgree(Run(l, events), Run(r, events));
    hide Twins, Step, Run, New;
    assert forall e :: e in events[..i] ==> e in events;
    RunTwins(l, r, events[..i]);
    assert events[i] in events;
    StepTwins(Run(l, events[..i]), Run(r, events[..i]), events[i]);
  }

  lemma NewTwins(m: GrantManifest, kb: KeyBackend, fb: FileBackend)
    requires Lawful(kb, fb)
    ensures Twins(New(ActualManifest(m, kb, fb), LocalKey(kb), LocalFile(fb)), New(m, kb, fb))
  {
  }

  lemma ServedAgree(l: HostState, r: HostState)
    requires Twins(l, r)
    ensures l.served == r.served
  {
  }

  /** Every filled slot names what its handles are really served under. */
  predicate SlotsBound(m: GrantManifest, kb: KeyBackend, fb: FileBackend) {
    ActualManifest(m, kb, fb) == m
  }

  /** So with slots that name the channels' own badges and objects, the two hosts have one manifest. */
  lemma BoundSlotsKeepTheManifest(m: GrantManifest, kb: KeyBackend, fb: FileBackend)
    ensures SlotsBound(m, kb, fb) <==>
            && (forall i :: 0 <= i < |m.keystoreKeys| && m.keystoreKeys[i].Some? && kb.RemoteKeystore? ==>
                  AtKeystore(m.keystoreKeys[i].value.badge, m.keystoreKeys[i].value.key) == ChannelKey(kb.ks, kb.badge))
            && (forall i :: 0 <= i < |m.filesystemFiles| && m.filesystemFiles[i].Some? && fb.RemoteFilesystem? ==>
                  AtFilesystem(m.filesystemFiles[i].value.badge, m.filesystemFiles[i].value.file)
                  == ChannelFile(fb.st, fb.badge))
  {
    var actual := ActualManifest(m, kb, fb);
    if SlotsBound(m, kb, fb) {
      assert forall i :: 0 <= i < |m.keystoreKeys| ==> actual.keystoreKeys[i] == m.keystoreKeys[i];
      assert forall i :: 0 <= i < |m.filesystemFiles| ==> actual.filesystemFiles[i] == m.filesystemFiles[i];
    }
  }
}
