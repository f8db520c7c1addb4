/** The confined filesystem guest, run against the host object. Its report is decided by what the service
    answers and by what the file held, and by nothing else. */
module FsGuest {
  import opened Prelude
  import opened Host
  import opened HostRuns
  import opened FileAnswers
  import opened GuestReports
  import K = Keystore
  import S = Store
  import RS = RuntimeState

  const OVERSIZED_LEN: nat := 257

  // ----- The guest -----

  function VerdictOn(b: FileBackend, f: Option<HostFile>, leaks: bool): Verdict {
    if f.None? then NoFile
    else match Reads(b, f.value)
         case Err(code) => NotReadable(code)
         case Ok(bytes) =>
           if bytes != [] then NotFresh(|bytes|)
           else match Refusal(b, f.value)
                case Some(code) => NotWritable(code)
                case None => Fine(leaks)
  }

  /** All a probe leaves behind: its own text in a file it found fresh and writable, and no handles. */
  ghost predicate LeavesBehind(h: HostState, h': HostState, v: Verdict, f: HostFile, content: seq<byte>) {
    && h' == h.(filesystem := h'.filesystem, served := h'.served)
    && SoundBackend(h'.filesystem) && SameGrants(h.filesystem, h'.filesystem)
    && forall file :: ContentIn(h'.filesystem, file) ==
         if v.Fine? && file == ActualFile(h.filesystem, f).file then content else ContentIn(h.filesystem, file)
  }

  method Read(rs: RS.RuntimeState, rep: nat, ghost f: HostFile) returns (r: Result<seq<byte>, K.ErrorCode>)
    requires rs.Valid() && SoundBackend(rs.host.filesystem) && FileCap(rs.host, rep) == Some(f)
    modifies rs.Footprint()
    ensures rs.Valid() && rs.host == old(rs.host).(served := rs.host.served)
    ensures r == Reads(rs.host.filesystem, f)
  {
    ReadOutcome(rs.host, rep, f);
    hide Step, SoundBackend, Reads;
    r := rs.ReadFile(rep);
  }

  method Write(rs: RS.RuntimeState, rep: nat, bytes: seq<byte>, ghost f: HostFile) returns (r: Result<(), K.ErrorCode>)
    requires rs.Valid() && SoundBackend(rs.host.filesystem) && FileCap(rs.host, rep) == Some(f)
    requires |bytes| <= S.MAX_BLOCK_LEN
    modifies rs.Footprint()
    ensures rs.Valid()
    ensures r == match Refusal(old(rs.host.filesystem), f) case None => Ok(()) case Some(code) => Err(code)
    ensures LeavesBehind(old(rs.host), rs.host, if r.Ok? then Fine(false) else NotWritable(r.error), f, bytes)
  {
    WriteOutcome(rs.host, rep, f, bytes);
    hide Step, SoundBackend, Refusal, SameGrants;
    r := rs.WriteFile(rep, bytes);
  }

  method WriteOversized(rs: RS.RuntimeState, rep: nat, bytes: seq<byte>, ghost f: HostFile)
    returns (r: Result<(), K.ErrorCode>)
    requires rs.Valid() && FileCap(rs.host, rep) == Some(f)
    requires |bytes| > S.MAX_BLOCK_LEN
    modifies rs.Footprint()
    ensures rs.Valid() && rs.host == old(rs.host)
    ensures r == if f.service == FilesystemService then Err(K.Invalid) else Err(K.Access)
  {
    OversizedWriteChangesNothing(rs.host, rep, bytes);
    hide Step, SoundBackend;
    r := rs.WriteFile(rep, bytes);
  }

  ghost predicate Room(limit: nat, table: map<nat, Entry>) {
    exists i: nat :: i < limit && i !in table
  }

  /** A second handle can be had: slot 1 is filled and the table has two indices free. */
  ghost predicate SecondOpens(files: seq<Option<HostFile>>, limit: nat, table: map<nat, Entry>) {
    Slot(files, 1).Some? && exists i: nat, j: nat :: i < j < limit && i !in table && j !in table
  }

  /** `open(slot).is_none()`, negated: a handle that is opened is dropped again at once. */
  method Opens(rs: RS.RuntimeState, slot: nat) returns (some: bool)
    requires rs.Valid()
    modifies rs, rs.table
    ensures rs.Valid() && rs.host == old(rs.host)
    ensures some <==> Slot(rs.files, slot).Some? && Room(rs.table.limit, old(rs.host.table))
  {
    hide KeyMethod, FileReadMethod, FileWriteMethod, RevokeKeyAt, RevokeFileAt;
    var rep := rs.OpenFile(slot);
    some := rep.Some?;
    if some {
      var _ := rs.DropFile(rep.value);
      assert rs.host.table == old(rs.host.table);
    }
  }

  /** The read-back, once the write was accepted. */
  method ReadBack(rs: RS.RuntimeState, file: nat, content: seq<byte>, debug: K.ErrorCode -> string, ghost f: HostFile)
    returns (report: string)
    requires rs.Valid() && SoundBackend(rs.host.filesystem) && FileCap(rs.host, file) == Some(f)
    modifies rs.Footprint()
    ensures rs.Valid() && rs.host == old(rs.host).(served := rs.host.served)
    ensures Reads(rs.host.filesystem, f) == Ok(content) ==>
              var leaks := Slot(rs.files, 1).Some? && Room(rs.table.limit, old(rs.host.table));
              report == ReportOf(Fine(leaks), |content|, debug)
  {
    hide Reads, SoundBackend, Room, ReportOf, Decimal, Step;
    var back := Read(rs, file, f);
    match back {
      case Err(e) => return "error: read-back failed: " + debug(e);
      case Ok(bytes) =>
        if bytes != content {
          return "error: read back " + Decimal(|bytes|) + " bytes that don't match what was written";
        }
    }
    report := Attack(rs, file, content, debug, f);
  }

  /** The adversarial half. If the handle reads what was written, only a handle leaked at slot 1 changes
      the report. */
  method Attack(rs: RS.RuntimeState, file: nat, content: seq<byte>, debug: K.ErrorCode -> string, ghost f: HostFile)
    returns (report: string)
    requires rs.Valid() && SoundBackend(rs.host.filesystem) && FileCap(rs.host, file) == Some(f)
    modifies rs.Footprint()
    ensures rs.Valid() && rs.host == old(rs.host).(served := rs.host.served)
    ensures Reads(rs.host.filesystem, f) == Ok(content) ==>
              var leaks := Slot(rs.files, 1).Some? && Room(rs.table.limit, old(rs.host.table));
              report == ReportOf(Fine(leaks), |content|, debug)
  {
    ServedByFiles(rs.host.filesystem, f);
    hide Reads, SoundBackend, Room, OkReport, Step;
    var oversized := WriteOversized(rs, file, seq<byte>(OVERSIZED_LEN, _ => 0xAA), f);
    match oversized {
      case Err(Invalid) => report := Intact(rs, file, content, debug, "invalid", f);
      case Err(Access) => report := "error: oversized write denied as access, not invalid";
      case Ok(_) => report := "error: an oversized write was accepted";
    }
  }

  /** Whether the refused write left the file as it was, and whether slot 1 opens. */
  method Intact(rs: RS.RuntimeState, file: nat, content: seq<byte>, debug: K.ErrorCode -> string, oversized: string,
                ghost f: HostFile)
    returns (report: string)
    requires rs.Valid() && SoundBackend(rs.host.filesystem) && FileCap(rs.host, file) == Some(f)
    modifies rs.Footprint()
    ensures rs.Valid() && rs.host == old(rs.host).(served := rs.host.served)
    ensures Reads(rs.host.filesystem, f) == Ok(content) ==>
              var leaks := Slot(rs.files, 1).Some? && Room(rs.table.limit, old(rs.host.table));
              report == OkReport(|content|, oversized, if leaks then "LEAKED" else "none")
  {
    hide Reads, SoundBackend, Room, OkReport, Step;
    var back := Read(rs, file, f);
    match back {
      case Err(e) => return "error: read after the refused write failed: " + debug(e);
      case Ok(bytes) =>
        if bytes != content {
          return "error: a refused oversized write still changed the file";
        }
    }
    var leaked := Opens(rs, 1);
    report := OkReport(|content|, oversized, if leaked then "LEAKED" else "none");
  }

  lemma ServedByFiles(b: FileBackend, f: HostFile)
    ensures Reads(b, f).Ok? ==> f.service == FilesystemService
  {
  }

  /** The probe with its file open. */
  method Exercise(rs: RS.RuntimeState, file: nat, content: seq<byte>, debug: K.ErrorCode -> string, ghost f: HostFile)
    returns (report: string)
    requires rs.Valid() && SoundBackend(rs.host.filesystem) && FileCap(rs.host, file) == Some(f)
    requires 0 < |content| <= S.MAX_BLOCK_LEN
    modifies rs.Footprint()
    ensures rs.Valid() && rs.host.table == old(rs.host.table)
    ensures var leaks := Slot(rs.files, 1).Some? && Room(rs.table.limit, old(rs.host.table));
            var v := VerdictOn(old(rs.host.filesystem), Some(f), leaks);
            report == ReportOf(v, |content|, debug) && LeavesBehind(old(rs.host), rs.host, v, f, content)
  {
    NothingYet(rs.host);
    hide Reads, Refusal, ContentIn, SoundBackend, SameGrants, Room, Step;
    hide OkReport, FreshReport, ReadDenied, WriteDenied;
    var first := Read(rs, file, f);
    match first {
      case Err(e) => return ReadDenied(debug(e));
      case Ok(bytes) =>
        if bytes != [] {
          return FreshReport(|bytes|);
        }
    }
    ghost var b := rs.host.filesystem;
    var wrote := Write(rs, file, content, f);
    match wrote {
      case Err(e) => return WriteDenied(debug(e));
      case Ok(_) =>
    }
    ReadsBack(b, rs.host.filesystem, f, content);
    report := ReadBack(rs, file, content, debug, f);
  }

  lemma NothingYet(h: HostState)
    ensures SameGrants(h.filesystem, h.filesystem)
  {
  }

  /** The file slot 0 opens, if the table has room. */
  ghost function Opened0(h: HostState, limit: nat): Option<HostFile> {
    if Room(limit, h.table) then Slot(h.files, 0) else None
  }

  /** What a probe of a host finds out. */
  ghost function ProbeVerdict(h: HostState, limit: nat): Verdict {
    VerdictOn(h.filesystem, Opened0(h, limit), SecondOpens(h.files, limit, h.table))
  }

  /** What a probe leaves of a host. */
  ghost predicate LeftByProbe(h: HostState, h': HostState, limit: nat, content: seq<byte>) {
    var f := Opened0(h, limit);
    if f.None? then h' == h else LeavesBehind(h, h', ProbeVerdict(h, limit), f.value, content)
  }

  /** `probe`: opens slot 0, exercises the file, drops the handle. */
  method Probe(rs: RS.RuntimeState, content: seq<byte>, debug: K.ErrorCode -> string) returns (report: string)
    requires rs.Valid() && SoundBackend(rs.host.filesystem)
    requires 0 < |content| <= S.MAX_BLOCK_LEN
    modifies rs.Footprint()
    ensures rs.Valid()
    ensures report == ReportOf(ProbeVerdict(old(rs.host), rs.table.limit), |content|, debug)
    ensures LeftByProbe(old(rs.host), rs.host, rs.table.limit, content)
  {
    hide VerdictOn, ReportOf, LeavesBehind, SoundBackend, KeyMethod, FileReadMethod, FileWriteMethod;
    hide RevokeFileAt, RevokeKeyAt;
    ghost var before := rs.host;
    NothingOpened(before.filesystem, SecondOpens(rs.files, rs.table.limit, before.table), |content|, debug);
    var rep := rs.OpenFile(0);
    if rep.None? {
      report := NO_FILE;
      return;
    }
    ghost var start, f := rs.host, rs.files[0].value;
    TwoFree(rs.table.limit, before.table, start.table, rep.value);
    report := ExerciseAndDrop(rs, rep.value, content, debug, f);
    Bracketed(before, start, rs.host, rep.value, ProbeVerdict(before, rs.table.limit), f, content);
  }

  /** The probe once its file is open; the handle is dropped on the way out. */
  method ExerciseAndDrop(rs: RS.RuntimeState, file: nat, content: seq<byte>, debug: K.ErrorCode -> string,
                         ghost f: HostFile)
    returns (report: string)
    requires rs.Valid() && SoundBackend(rs.host.filesystem) && FileCap(rs.host, file) == Some(f)
    requires 0 < |content| <= S.MAX_BLOCK_LEN
    modifies rs.Footprint()
    ensures rs.Valid()
    ensures var leaks := Slot(rs.files, 1).Some? && Room(rs.table.limit, old(rs.host.table));
            var v := VerdictOn(old(rs.host.filesystem), Some(f), leaks);
            && report == ReportOf(v, |content|, debug)
            && LeavesBehind(old(rs.host), rs.host.(table := old(rs.host.table)), v, f, content)
            && rs.host.table == old(rs.host.table) - {file}
  {
    hide VerdictOn, ReportOf, SoundBackend, KeyMethod, FileReadMethod, FileWriteMethod, RevokeFileAt, RevokeKeyAt;
    report := Exercise(rs, file, content, debug, f);
    var _ := rs.DropFile(file);
  }

  lemma NothingOpened(b: FileBackend, leaks: bool, written: nat, debug: K.ErrorCode -> string)
    ensures ReportOf(VerdictOn(b, None, leaks), written, debug) == NO_FILE
  {
  }

  /** Opening a handle before and dropping it after adds nothing to what is left behind. */
  lemma Bracketed(h: HostState, start: HostState, h': HostState, rep: nat, v: Verdict, f: HostFile, content: seq<byte>)
    requires LeavesBehind(start, h'.(table := start.table), v, f, content)
    requires rep !in h.table && start == h.(table := h.table[rep := FileEntry(f)])
    requires h'.table == start.table - {rep}
    ensures LeavesBehind(h, h', v, f, content)
  {
    assert h'.table == h.table;
  }

  lemma TwoFree(limit: nat, before: map<nat, Entry>, after: map<nat, Entry>, rep: nat)
    requires rep < limit && rep !in before && after.Keys == before.Keys + {rep}
    ensures Room(limit, after) <==> exists i: nat, j: nat :: i < j < limit && i !in before && j !in before
  {
    if Room(limit, after) {
      var i: nat :| i < limit && i !in after;
      assert i != rep && i !in before;
    }
    if i: nat, j: nat :| i < j < limit && i !in before && j !in before {
      assert i !in after || j !in after;
    }
  }
}
