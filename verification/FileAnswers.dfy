/** What a host answers about one file, decided by its service's records and what the file holds. */
module FileAnswers {
  import opened Prelude
  import opened Host
  import opened HostRuns
  import K = Keystore
  import S = Store

  /** The service's records let this handle read (or write) its file. */
  predicate Permits(b: FileBackend, f: HostFile, writing: bool) {
    && f.service == FilesystemService
    && StoreOf(b).Some?
    && S.CheckAccess(StoreOf(b).value, ActualFile(b, f).badge, ActualFile(b, f).file, writing).None?
  }

  /** What a read through the handle answers. */
  function Reads(b: FileBackend, f: HostFile): Result<seq<byte>, K.ErrorCode> {
    if !Permits(b, f, false) then Err(K.Access) else S.Held(StoreOf(b).value, ActualFile(b, f).file)
  }

  /** What a write of a block or less through the handle is refused with, if it is. */
  function Refusal(b: FileBackend, f: HostFile): Option<K.ErrorCode> {
    if !Permits(b, f, true) then Some(K.Access) else S.RefusalCode(StoreOf(b).value.cipher)
  }

  function ContentIn(b: FileBackend, file: nat): seq<byte> {
    if StoreOf(b).None? then [] else S.Content(StoreOf(b).value, file)
  }

  ghost predicate SoundBackend(b: FileBackend) {
    StoreOf(b).Some? ==> S.Sound(StoreOf(b).value)
  }

  /** The same grants and cipher over the same channel, whatever the files hold. */
  ghost predicate SameGrants(b: FileBackend, b': FileBackend) {
    && (StoreOf(b').Some? <==> StoreOf(b).Some?)
    && (StoreOf(b).Some? ==> StoreOf(b').value.cipher == StoreOf(b).value.cipher)
    && forall f: HostFile, w :: SameFor(b, b', f, w)
  }

  predicate SameFor(b: FileBackend, b': FileBackend, f: HostFile, w: bool) {
    Permits(b', f, w) == Permits(b, f, w) && ActualFile(b', f) == ActualFile(b, f)
  }

  lemma ReadOutcome(h: HostState, rep: nat, f: HostFile)
    requires FileCap(h, rep) == Some(f) && SoundBackend(h.filesystem)
    ensures var (h', r) := Step(h, FileRead(rep));
            h' == h.(served := h'.served) && r == ReadResult(Reads(h.filesystem, f))
  {
    if f.service == FilesystemService && StoreOf(h.filesystem).Some? {
      var st := StoreOf(h.filesystem).value;
      S.ReadIsContent(st, f.badge, f.file);
      if h.filesystem.RemoteFilesystem? {
        S.RemoteRefinesLocal(st, h.filesystem.badge, S.FileOf(st, h.filesystem.badge), []);
        S.ReadIsContent(st, h.filesystem.badge, S.FileOf(st, h.filesystem.badge));
      }
    }
  }

  lemma WriteGrants(b: FileBackend, f: HostFile, bytes: seq<byte>)
    requires StoreOf(b).Some?
    ensures SameGrants(b, WriteFile(b, f, bytes).0)
  {
    var b' := WriteFile(b, f, bytes).0;
    var badge, file := ActualFile(b, f).badge, ActualFile(b, f).file;
    var st := StoreOf(b).value;
    assert StoreOf(b').value == S.WriteBlock(st, badge, file, bytes).0;
    forall g: HostFile, w ensures SameFor(b, b', g, w) {
      SameAccess(st, badge, file, bytes, ActualFile(b, g).badge, ActualFile(b, g).file, w);
    }
  }

  lemma SameAccess(st: S.Store, badge: nat, file: nat, bytes: seq<byte>, badge': nat, file': nat, w: bool)
    ensures S.CheckAccess(S.WriteBlock(st, badge, file, bytes).0, badge', file', w)
            == S.CheckAccess(st, badge', file', w)
  {
  }

  lemma WriteOutcome(h: HostState, rep: nat, f: HostFile, bytes: seq<byte>)
    requires FileCap(h, rep) == Some(f) && SoundBackend(h.filesystem) && |bytes| <= S.MAX_BLOCK_LEN
    ensures var (h', r) := Step(h, FileWrite(rep, bytes));
            var refusal := Refusal(h.filesystem, f);
            && h' == h.(filesystem := h'.filesystem, served := h'.served)
            && r == WriteResult(if refusal.None? then Ok(()) else Err(refusal.value))
            && SoundBackend(h'.filesystem) && SameGrants(h.filesystem, h'.filesystem)
            && forall file :: ContentIn(h'.filesystem, file) ==
                 if refusal.None? && file == ActualFile(h.filesystem, f).file then bytes
                 else ContentIn(h.filesystem, file)
  {
    var b := h.filesystem;
    if f.service == FilesystemService && StoreOf(b).Some? {
      WriteGrants(b, f, bytes);
      WriteAccess(b, f, bytes);
      hide SameGrants, S.Content, S.Sound, WriteFile, Permits;
      forall file ensures SoundBackend(WriteFile(b, f, bytes).0) && ContentIn(WriteFile(b, f, bytes).0, file) ==
        if Refusal(b, f).None? && file == ActualFile(b, f).file then bytes else ContentIn(b, file)
      {
        WriteBackend(b, f, bytes, file);
      }
    }
  }

  /** A write a block can hold is refused only by the records or with the store's own key grant. */
  lemma WriteAccess(b: FileBackend, f: HostFile, bytes: seq<byte>)
    requires f.service == FilesystemService && StoreOf(b).Some? && SoundBackend(b) && |bytes| <= S.MAX_BLOCK_LEN
    ensures S.GuestWrite(WriteFile(b, f, bytes).1) == if Refusal(b, f).None? then Ok(()) else Err(Refusal(b, f).value)
  {
    var actual := ActualFile(b, f);
    S.WriteIsContent(StoreOf(b).value, actual.badge, actual.file, bytes);
    S.AccessByRecords(StoreOf(b).value, actual.badge, actual.file, true);
    if b.RemoteFilesystem? {
      S.RemoteRefinesLocal(b.st, b.badge, actual.file, bytes);
    }
  }

  /** After an accepted write a readable file reads back as what was written. */
  lemma ReadsBack(b: FileBackend, b': FileBackend, f: HostFile, content: seq<byte>)
    requires SameGrants(b, b') && Reads(b, f).Ok? && Refusal(b, f).None?
    requires ContentIn(b', ActualFile(b, f).file) == content
    ensures Reads(b', f) == Ok(content)
  {
    assert SameFor(b, b', f, false);
  }
}
