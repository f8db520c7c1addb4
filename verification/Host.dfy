/** The mapping from guest handles to host capabilities, as one step per guest call: which record a
    handle names, what each service is made to serve, and what the guest is told. `RuntimeState` is
    the object that takes these steps. */
module Host {
  import opened Prelude
  import Wire
  import K = Keystore
  import I = IpcKeystore
  import S = Store

  datatype ServiceEndpoint = KeystoreService | FilesystemService

  datatype HostCapability = HostCapability(badge: nat, key: nat, service: ServiceEndpoint)

  datatype HostFile = HostFile(badge: nat, file: nat, service: ServiceEndpoint)

  /** One record of the typed table that both resource kinds share. */
  datatype Entry = KeyEntry(cap: HostCapability) | FileEntry(handle: HostFile)

  datatype MonotonicClock = MonotonicClock(nowNs: nat, resolutionNs: nat)

  /** `GrantManifest`: positional slots with holes, and the link-scoped clock. */
  datatype GrantManifest = GrantManifest(
    keystoreKeys: seq<Option<HostCapability>>,
    filesystemFiles: seq<Option<HostFile>>,
    monotonicClock: Option<MonotonicClock>)

  /** An attached service: in process, or across the one channel bound to `badge`. */
  datatype KeyBackend = NoKeystore | LocalKeystore(ks: K.Keystore) | RemoteKeystore(ks: K.Keystore, badge: nat)

  datatype FileBackend = NoFilesystem | LocalFilesystem(st: S.Store) | RemoteFilesystem(st: S.Store, badge: nat)

  /** A call a service took up, with the badge it was made under and the object it was made on. */
  datatype Served = AtKeystore(badge: nat, key: nat) | AtFilesystem(badge: nat, file: nat)

  datatype HostState = HostState(
    table: map<nat, Entry>,
    keys: seq<Option<HostCapability>>,
    files: seq<Option<HostFile>>,
    keystore: KeyBackend,
    filesystem: FileBackend,
    clock: Option<MonotonicClock>,
    served: seq<Served>)

  /** `RuntimeState::new` with its services attached. */
  function New(m: GrantManifest, keystore: KeyBackend, filesystem: FileBackend): HostState {
    HostState(map[], m.keystoreKeys, m.filesystemFiles, keystore, filesystem, m.monotonicClock, [])
  }

  /** Everything that can happen between the guest and its host, including a service-side revocation.
      `Method` is a keystore method on a handle. The index a table push picks is an input: `pick`. */
  datatype Event =
    | KeyOpen(slot: nat, pick: Option<nat>)
    | Method(rep: nat, call: K.KeyCall)
    | KeyDrop(rep: nat)
    | FileOpen(slot: nat, pick: Option<nat>)
    | FileRead(rep: nat)
    | FileWrite(rep: nat, bytes: seq<byte>)
    | FileDrop(rep: nat)
    | ClockNow
    | ClockResolution
    | RevokeKey(badge: nat)
    | RevokeFile(badge: nat)

  datatype Reply =
    | Opened(rep: Option<nat>)
    | KeyResult(key: Result<K.KeyReply, K.ErrorCode>)
    | ReadResult(read: Result<seq<byte>, K.ErrorCode>)
    | WriteResult(write: Result<(), K.ErrorCode>)
    | Dropped(ok: bool)
    | Time(value: nat)
    | Trap
    | Silent

  function Slot<T>(slots: seq<Option<T>>, slot: nat): Option<T> {
    if slot < |slots| then slots[slot] else None
  }

  /** `table.push`: a fresh index, or nothing when the table is full. */
  function Push(h: HostState, e: Entry, pick: Option<nat>): (HostState, Reply) {
    if pick.Some? && pick.value !in h.table then (h.(table := h.table[pick.value := e]), Opened(pick))
    else (h, Opened(None))
  }

  function KeyCap(h: HostState, rep: nat): Option<HostCapability> {
    if rep in h.table && h.table[rep].KeyEntry? then Some(h.table[rep].cap) else None
  }

  function FileCap(h: HostState, rep: nat): Option<HostFile> {
    if rep in h.table && h.table[rep].FileEntry? then Some(h.table[rep].handle) else None
  }

  function KeystoreOf(b: KeyBackend): Option<K.Keystore> {
    match b
    case NoKeystore => None
    case LocalKeystore(ks) => Some(ks)
    case RemoteKeystore(ks, _) => Some(ks)
  }

  function StoreOf(b: FileBackend): Option<S.Store> {
    match b
    case NoFilesystem => None
    case LocalFilesystem(st) => Some(st)
    case RemoteFilesystem(st, _) => Some(st)
  }

  /** The capability a call through `cap` is really served under. A service in process takes the
      handle's own badge and key; a channel has one badge, and its service looks the key up. */
  function ActualCap(b: KeyBackend, cap: HostCapability): (actual: HostCapability)
    ensures actual.service == cap.service
  {
    match b
    case RemoteKeystore(ks, badge) => cap.(badge := badge, key := K.KeyOf(ks, badge))
    case _ => cap
  }

  function ActualFile(b: FileBackend, f: HostFile): (actual: HostFile)
    ensures actual.service == f.service
  {
    match b
    case RemoteFilesystem(st, badge) => f.(badge := badge, file := S.FileOf(st, badge))
    case _ => f
  }

  /** The trait call on whichever keystore is attached. */
  function CallKeystore(b: KeyBackend, cap: HostCapability, call: K.KeyCall): I.Outcome
    requires !b.NoKeystore?
  {
    match b
    case LocalKeystore(ks) => I.Returned(K.Serve(ks, cap.badge, cap.key, call))
    case RemoteKeystore(ks, badge) => I.Remote(I.ChannelTo(ks, badge), call)
  }

  function KeyMethod(h: HostState, rep: nat, call: K.KeyCall): (HostState, Reply) {
    match KeyCap(h, rep)
    case None => (h, KeyResult(Err(K.Access)))
    case Some(cap) =>
      if cap.service != KeystoreService then (h, KeyResult(Err(K.Access)))
      else if !I.Typed(call) then (h, KeyResult(Err(K.Invalid)))
      else if h.keystore.NoKeystore? then (h, KeyResult(Err(K.Access)))
      else
        match CallKeystore(h.keystore, cap, call)
        case Panicked => (h, Trap)
        case Returned(r) =>
          var actual := ActualCap(h.keystore, cap);
          (h.(served := h.served + [AtKeystore(actual.badge, actual.key)]), KeyResult(K.GuestView(r)))
  }

  function ReadFile(b: FileBackend, f: HostFile): Result<seq<byte>, S.StoreError>
    requires !b.NoFilesystem?
  {
    match b
    case LocalFilesystem(st) => S.ReadBlock(st, f.badge, f.file)
    case RemoteFilesystem(st, badge) => S.ReadAnswer(S.Serve(st, badge, S.OP_READ, []).1)
  }

  function WriteFile(b: FileBackend, f: HostFile, bytes: seq<byte>): (FileBackend, Result<(), S.StoreError>)
    requires !b.NoFilesystem?
  {
    match b
    case LocalFilesystem(st) =>
      var (st', r) := S.WriteBlock(st, f.badge, f.file, bytes);
      (LocalFilesystem(st'), r)
    case RemoteFilesystem(st, badge) =>
      var (st', a) := S.Serve(st, badge, S.OP_WRITE, bytes);
      (RemoteFilesystem(st', badge), S.WriteAnswer(a))
  }

  function FileReadMethod(h: HostState, rep: nat): (HostState, Reply) {
    match FileCap(h, rep)
    case None => (h, ReadResult(Err(K.Access)))
    case Some(f) =>
      if f.service != FilesystemService || h.filesystem.NoFilesystem? then (h, ReadResult(Err(K.Access)))
      else
        var actual := ActualFile(h.filesystem, f);
        (h.(served := h.served + [AtFilesystem(actual.badge, actual.file)]),
         ReadResult(S.GuestRead(ReadFile(h.filesystem, f))))
  }

  function FileWriteMethod(h: HostState, rep: nat, bytes: seq<byte>): (HostState, Reply) {
    match FileCap(h, rep)
    case None => (h, WriteResult(Err(K.Access)))
    case Some(f) =>
      if f.service != FilesystemService then (h, WriteResult(Err(K.Access)))
      else if |bytes| > S.MAX_BLOCK_LEN then (h, WriteResult(Err(K.Invalid)))
      else if h.filesystem.NoFilesystem? then (h, WriteResult(Err(K.Access)))
      else
        var (fs, r) := WriteFile(h.filesystem, f, bytes);
        var actual := ActualFile(h.filesystem, f);
        (h.(filesystem := fs, served := h.served + [AtFilesystem(actual.badge, actual.file)]),
         WriteResult(S.GuestWrite(r)))
  }

  function RevokeKeyAt(b: KeyBackend, badge: nat): KeyBackend {
    match b
    case NoKeystore => NoKeystore
    case LocalKeystore(ks) => LocalKeystore(K.Revoke(ks, badge))
    case RemoteKeystore(ks, channel) => RemoteKeystore(K.Revoke(ks, badge), channel)
  }

  function RevokeFileAt(b: FileBackend, badge: nat): FileBackend {
    match b
    case NoFilesystem => NoFilesystem
    case LocalFilesystem(st) => LocalFilesystem(S.Revoke(st, badge))
    case RemoteFilesystem(st, channel) => RemoteFilesystem(S.Revoke(st, badge), channel)
  }

  function Step(h: HostState, e: Event): (HostState, Reply) {
    match e
    case KeyOpen(slot, pick) =>
      (match Slot(h.keys, slot)
       case None => (h, Opened(None))
       case Some(cap) => Push(h, KeyEntry(cap), pick))
    case Method(rep, call) => KeyMethod(h, rep, call)
    case KeyDrop(rep) =>
      if KeyCap(h, rep).Some? then (h.(table := h.table - {rep}), Dropped(true)) else (h, Dropped(false))
    case FileOpen(slot, pick) =>
      (match Slot(h.files, slot)
       case None => (h, Opened(None))
       case Some(f) => Push(h, FileEntry(f), pick))
    case FileRead(rep) => FileReadMethod(h, rep)
    case FileWrite(rep, bytes) => FileWriteMethod(h, rep, bytes)
    case FileDrop(rep) =>
      if FileCap(h, rep).Some? then (h.(table := h.table - {rep}), Dropped(true)) else (h, Dropped(false))
    case ClockNow => (h, if h.clock.Some? then Time(h.clock.value.nowNs) else Trap)
    case ClockResolution => (h, if h.clock.Some? then Time(h.clock.value.resolutionNs) else Trap)
    case RevokeKey(badge) => (h.(keystore := RevokeKeyAt(h.keystore, badge)), Silent)
    case RevokeFile(badge) => (h.(filesystem := RevokeFileAt(h.filesystem, badge)), Silent)
  }

  function Run(h: HostState, events: seq<Event>): HostState {
    if events == [] then h else Step(Run(h, events[..|events| - 1]), events[|events| - 1]).0
  }

  /** The reply to the event at `i` of a run. */
  function ReplyAt(h: HostState, events: seq<Event>, i: nat): Reply
    requires i < |events|
  {
    Step(Run(h, events[..i]), events[i]).1
  }

  // ----- Linking -----

  datatype Interface = Clock | Keystore | Filesystem

  /** `build_linker`: the interfaces a component built against `m` can import. */
  function BuildLinker(m: GrantManifest): set<Interface> {
    (if m.monotonicClock.Some? then {Clock} else {})
    + (if m.keystoreKeys != [] then {Keystore} else {})
    + (if m.filesystemFiles != [] then {Filesystem} else {})
  }

  function InterfaceOf(e: Event): Option<Interface> {
    match e
    case KeyOpen(_, _) | Method(_, _) | KeyDrop(_) => Some(Keystore)
    case FileOpen(_, _) | FileRead(_) | FileWrite(_, _) | FileDrop(_) => Some(Filesystem)
    case ClockNow | ClockResolution => Some(Clock)
    case RevokeKey(_) | RevokeFile(_) => None
  }
}
