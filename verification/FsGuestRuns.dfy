/** What the filesystem guest's reports mean: to a launcher that checks them, before and after a revocation. */
module FsGuestRuns {
  import opened Prelude
  import opened Host
  import opened HostRuns
  import opened FileAnswers
  import opened GuestReports
  import opened FsGuest
  import K = Keystore
  import S = Store
  import L = Launch
  import LR = LaunchRuns
  import RS = RuntimeState

  /** The file opens, reads as empty and takes a write. */
  predicate Ready(b: FileBackend, f: Option<HostFile>) {
    f.Some? && Reads(b, f.value) == Ok([]) && Refusal(b, f.value).None?
  }

  /** The service refused the guest: the read, or the write to a file that read as empty. */
  predicate Denied(b: FileBackend, f: Option<HostFile>) {
    && f.Some?
    && (Reads(b, f.value) == Err(K.Access) || (Reads(b, f.value) == Ok([]) && Refusal(b, f.value) == Some(K.Access)))
  }

  /** The verdict is exact: the report says ok exactly when slot 0 opens, the service allows reading and
      writing, and the file starts empty; it carries the required markers exactly when slot 1 also stays
      shut; and it reads as a refusal exactly when the service refused. */
  lemma VerdictIsExact(b: FileBackend, f: Option<HostFile>, leaks: bool, written: nat, debug: K.ErrorCode -> string)
    requires TellsAccess(debug)
    ensures var report := ReportOf(VerdictOn(b, f, leaks), written, debug);
            && ("ok: " <= report <==> Ready(b, f))
            && (L.Accepted(REQUIRED, report) <==> Ready(b, f) && !leaks)
            && (L.Refused(REFUSED, report) <==> Denied(b, f))
  {
    hide L.Accepted, L.Refused, Reads, Refusal, ReportOf, TellsAccess;
    TextOf(VerdictOn(b, f, leaks), written, debug);
  }

  /** The guest's oversized write is one byte more than a write to its file can be. */
  lemma OversizedByOneByte(h: HostState, rep: nat, f: HostFile)
    requires FileCap(h, rep) == Some(f) && SoundBackend(h.filesystem) && Refusal(h.filesystem, f).None?
    ensures Step(h, FileWrite(rep, seq<byte>(OVERSIZED_LEN, _ => 0xAA))).1 == WriteResult(Err(K.Invalid))
    ensures Step(h, FileWrite(rep, seq<byte>(OVERSIZED_LEN - 1, _ => 0xAA))).1 == WriteResult(Ok(()))
  {
    hide SoundBackend, S.WriteBlock;
    WriteOutcome(h, rep, f, seq<byte>(OVERSIZED_LEN - 1, _ => 0xAA));
  }

  /** A leak is what a handle at slot 1 is: the file ready, slot 1 filled, and two indices free. */
  lemma LeakIffSlotOneOpens(h: HostState, limit: nat)
    ensures ProbeVerdict(h, limit) == Fine(true) <==>
            && |h.files| > 1 && h.files[0].Some? && h.files[1].Some? && Ready(h.filesystem, h.files[0])
            && exists i: nat, j: nat :: i < j < limit && i !in h.table && j !in h.table
  {
    hide Reads, Refusal;
    if i: nat, j: nat :| i < j < limit && i !in h.table && j !in h.table {
      assert Room(limit, h.table);
    }
  }

  /** After a probe that reported ok, a probe on a still-live grant fails, and only as not fresh; with some
      badge revoked in between, it reads as a refusal exactly when that is the badge the file is
      reached by. */
  lemma SecondProbeRefusedIffRevoked(h: HostState, h': HostState, f: HostFile, leaks: bool, content: seq<byte>,
                                     badge: nat, debug: K.ErrorCode -> string)
    requires Ready(h.filesystem, Some(f)) && content != [] && TellsAccess(debug)
    requires LeavesBehind(h, h', VerdictOn(h.filesystem, Some(f), leaks), f, content)
    ensures VerdictOn(h'.filesystem, Some(f), leaks) == NotFresh(|content|)
    ensures var b := RevokeFileAt(h'.filesystem, badge);
            var v := VerdictOn(b, Some(f), leaks);
            && v == (if badge == ActualFile(h'.filesystem, f).badge then NotReadable(K.Access) else NotFresh(|content|))
            && (L.Refused(REFUSED, ReportOf(v, |content|, debug)) <==> badge == ActualFile(h'.filesystem, f).badge)
  {
    hide TellsAccess, ReportOf, L.Refused;
    ReadsBack(h.filesystem, h'.filesystem, f, content);
    var b := RevokeFileAt(h'.filesystem, badge);
    RevokeOutcome(h'.filesystem, badge, f);
    VerdictIsExact(b, Some(f), leaks, |content|, debug);
  }

  lemma RevokeOutcome(b: FileBackend, badge: nat, f: HostFile)
    requires SoundBackend(b) && Reads(b, f).Ok?
    ensures var b' := RevokeFileAt(b, badge);
            Reads(b', f) == if badge == ActualFile(b, f).badge then Err(K.Access) else Reads(b, f)
  {
    RevokeKeepsContent(StoreOf(b).value, badge, ActualFile(b, f).file);
  }

  /** The guest's two probes on one host object with a revocation at its service in between: if the first
      reports ok, the second reads as a refusal exactly when the badge revoked is the one the file is
      reached by, and otherwise only says that the file is no longer fresh. */
  method ProbeRevokeProbe(rs: RS.RuntimeState, content: seq<byte>, badge: nat, debug: K.ErrorCode -> string)
    returns (first: string, second: string)
    requires rs.Valid() && SoundBackend(rs.host.filesystem) && TellsAccess(debug)
    requires 0 < |content| <= S.MAX_BLOCK_LEN
    modifies rs.Footprint()
    ensures rs.Valid()
    ensures var f := Opened0(old(rs.host), rs.table.limit);
            && ("ok: " <= first <==> Ready(old(rs.host.filesystem), f))
            && ("ok: " <= first ==>
                  var reached := badge == ActualFile(old(rs.host.filesystem), f.value).badge;
                  && (L.Refused(REFUSED, second) <==> reached)
                  && (!reached ==> second == FreshReport(|content|)))
  {
    hide L.Refused, TellsAccess, OkReport, FreshReport, Reads, Refusal, LeavesBehind, SoundBackend, Step;
    ghost var h, limit := rs.host, rs.table.limit;
    first := Probe(rs, content, debug);
    VerdictIsExact(h.filesystem, Opened0(h, limit), SecondOpens(h.files, limit, h.table), |content|, debug);
    ghost var h1 := rs.host;
    rs.RevokeFile(badge);
    ghost var h2 := rs.host;
    AfterRevocation(h, h1, h2, limit, content, badge);
    second := Probe(rs, content, debug);
    if Ready(h.filesystem, Opened0(h, limit)) {
      SecondReport(h, h1, h2, limit, content, badge, debug);
    }
  }

  lemma AfterRevocation(h: HostState, h1: HostState, h2: HostState, limit: nat, content: seq<byte>, badge: nat)
    requires SoundBackend(h.filesystem) && LeftByProbe(h, h1, limit, content) && h2 == Step(h1, RevokeFile(badge)).0
    ensures SoundBackend(h2.filesystem) && h2 == h1.(filesystem := RevokeFileAt(h1.filesystem, badge))
  {
    if StoreOf(h1.filesystem).Some? {
      RevokeKeepsContent(StoreOf(h1.filesystem).value, badge, 0);
    }
  }

  /** What the second probe reports, from the two states it lies between. */
  lemma SecondReport(h: HostState, h1: HostState, h2: HostState, limit: nat, content: seq<byte>, badge: nat,
                     debug: K.ErrorCode -> string)
    requires SoundBackend(h.filesystem) && TellsAccess(debug) && content != []
    requires LeftByProbe(h, h1, limit, content) && h2 == h1.(filesystem := RevokeFileAt(h1.filesystem, badge))
    requires Ready(h.filesystem, Opened0(h, limit))
    ensures var reached := badge == ActualFile(h.filesystem, Opened0(h, limit).value).badge;
            var second := ReportOf(ProbeVerdict(h2, limit), |content|, debug);
            && (L.Refused(REFUSED, second) <==> reached)
            && (!reached ==> second == FreshReport(|content|))
  {
    hide L.Refused, TellsAccess, OkReport, FreshReport, Reads, Refusal, SoundBackend;
    var f := Opened0(h, limit).value;
    assert SameFor(h.filesystem, h1.filesystem, f, false);
    SecondProbeRefusedIffRevoked(h, h1, f, SecondOpens(h.files, limit, h.table), content, badge, debug);
  }

  /** In a launch's manifest only slot 0 can be filled, so a probe of the launched host finds the file fine
      exactly when the bind was granted, the table has room and the service's file is ready, and never
      gets a second handle. */
  lemma ManifestVerdict(declared: nat, granted: bool, kb: KeyBackend, b: FileBackend, limit: nat)
    requires declared > 0
    ensures var h := New(L.FileManifest(declared, granted), kb, b);
            var f := HostFile(0, 0, FilesystemService);
            && (ProbeVerdict(h, limit) == Fine(false) <==> granted && limit > 0 && Ready(b, Some(f)))
            && ProbeVerdict(h, limit) != Fine(true)
            && (granted && limit > 0 ==> Opened0(h, limit) == Some(f))
  {
    hide Reads, Refusal;
    assert limit > 0 ==> 0 !in New(L.FileManifest(declared, granted), kb, b).table;
  }

  lemma LaunchedVerdict(world: L.World, bytes: seq<byte>, granted: bool, kb: KeyBackend, b: FileBackend, limit: nat)
    requires L.PlannedWiring(world, bytes) == Some(L.ForFilesystem)
    ensures L.LaunchManifest(world, bytes, granted).Some?
    ensures var h := New(L.LaunchManifest(world, bytes, granted).value, kb, b);
            var f := HostFile(0, 0, FilesystemService);
            && (ProbeVerdict(h, limit) == Fine(false) <==> granted && limit > 0 && Ready(b, Some(f)))
            && ProbeVerdict(h, limit) != Fine(true)
            && (granted && limit > 0 ==> Opened0(h, limit) == Some(f))
  {
    LR.PlanManifest(world, bytes, granted);
    hide L.LaunchManifest, L.PlannedWiring, Reads, Refusal, ProbeVerdict, Opened0;
    var n: nat :| n > 0 && L.LaunchManifest(world, bytes, granted) == Some(L.FileManifest(n, granted));
    ManifestVerdict(n, granted, kb, b, limit);
  }
}
