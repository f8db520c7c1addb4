/** The launch program told a second time, as one table over positions: what happens after a given history,
    and what the launch fails with if that does not go well. Every run of the program is this table's. */
module LaunchReference {
  import opened Prelude
  import opened Launch
  import H = Host
  import K = Keystore
  import LR = LaunchRuns

  /** What happens next, and the failure it ends the launch with, if it does. */
  datatype Turn = Turn(e: Event, failure: Option<Failure>)

  function Unless(good: bool, stage: Stage, detail: nat): Option<Failure> {
    if good then None else Some(Failure(stage, detail))
  }

  ghost predicate VerifiesUnder(world: World, package: Signed) {
    exists key :: key in world.trusted && world.verify(package, key)
  }

  /** Positions 0 to 5: the package and its plan. */
  ghost function PackageTurn(world: World, bytes: seq<byte>, h: seq<Event>): Turn
    requires |h| < 6 && (|h| > 1 ==> world.decode(bytes).Some?)
    requires |h| == 5 ==> world.parse(world.decode(bytes).value.manifest).Some?
  {
    if |h| == 0 then Turn(LengthChecked(|bytes|), Unless(0 < |bytes| <= 0x20_0000, Package, 1))
    else if |h| == 1 then Turn(Decoded(world.decode(bytes)), Unless(world.decode(bytes).Some?, Package, 2))
    else
      var package := world.decode(bytes).value;
      var plan := world.parse(package.manifest);
      if |h| == 2 then
        var forged := VerifiesUnder(world, Tampered(package));
        Turn(ForgedVerified(Tampered(package), forged), Unless(!forged, Package, 3))
      else if |h| == 3 then
        var verified := VerifiesUnder(world, package);
        Turn(RealVerified(package, verified), Unless(verified, Package, 4))
      else if |h| == 4 then Turn(Parsed(package.manifest, plan), Unless(plan.Some?, Manifest, 1))
      else
        Turn(PlanChecked(plan.value),
             if plan.value.clock then Some(Failure(Manifest, 4))
             else if plan.value.keys == 0 && plan.value.files == 0 then Some(Failure(Manifest, 2))
             else if plan.value.keys > 0 && plan.value.files > 0 then Some(Failure(Manifest, 3))
             else None)
  }

  /** From position 6: the bind, and if it is granted what must be refused after it. */
  ghost function GrantTurn(world: World, asked: H.Interface, h: seq<Event>): Turn
    requires 6 <= |h| < 12
  {
    if |h| == 6 then
      var bound := world.bind(h, 2, asked);
      Turn(Bound(2, asked, bound), Unless(bound.Some?, Grant, 1))
    else if |h| == 7 then
      var bound := world.bind(h, 5, asked);
      Turn(Bound(5, asked, bound), Unless(bound == Some(false), Grant, if bound.None? then 1 else 2))
    else if |h| == 8 then Turn(GrantTried(world.grant(h)), Unless(world.grant(h) == Some(1), Grant, 3))
    else if |h| == 9 then Turn(Listed(world.list(h)), Unless(world.list(h) == Some(None), Grant, 4))
    else if |h| == 10 then Turn(RevokeTried(world.revoke(h)), Unless(world.revoke(h) != Some(0), Grant, 5))
    else
      Turn(EncryptTried(world.encrypt(h)),
           match world.encrypt(h)
           case None => Some(Failure(Attenuation, 0x200))
           case Some(RemoteDenied(status)) => Unless(status == 1, Attenuation, status)
           case Some(_) => Some(Failure(Attenuation, 0x100)))
  }

  /** The index after the first missing marker, or none. */
  function FirstMissing(required: seq<string>, report: string, i: nat): Option<nat>
    requires i <= |required|
    decreases |required| - i
  {
    if i == |required| then None
    else if !Contains(report, required[i]) then Some(i + 1)
    else FirstMissing(required, report, i + 1)
  }

  function Required(keys: bool): seq<string> {
    if keys then ["keystore.open(1)=none"]
    else ["oversized write=invalid", "content intact", "filesystem.open(1)=none"]
  }

  function FirstReportFailure(keys: bool, report: Option<string>): Option<Failure> {
    if report.None? then Some(Failure(Call, 0))
    else if !("ok: " <= report.value) then Some(Failure(Verdict, 0))
    else match FirstMissing(Required(keys), report.value, 0)
         case None => None
         case Some(i) => Some(Failure(Verdict, i))
  }

  function SecondReportFailure(keys: bool, report: Option<string>): Option<Failure> {
    if report.None? then Some(Failure(Call, 1))
    else Unless("error: " <= report.value && Contains(report.value, if keys then "keystore denied" else "\"access\""),
                Revocation, 3)
  }

  /** `0x100 | status`, or nothing wrong: the low half of a reply's label is its status. */
  function ChunkFailure(more: bool, tag: Option<nat>): Option<Failure> {
    if tag.None? then Some(Failure(Revocation, 1))
    else
      var status := tag.value % 0x1_0000;
      if more then Unless(status == 0, Revocation, 1)
      else Unless(status == 1, Revocation, if (status / 0x100) % 2 == 1 then status else status + 0x100)
  }

  /** The j-th event from the loaded code on. */
  ghost function HostTurn(world: World, package: Signed, m: H.GrantManifest, keys: bool, h: seq<Event>, j: nat): Turn
    requires j < 12
  {
    var op := if keys then OpenSign else OpenRead;
    if j == 0 then
      var ok := world.deserialize(h, package.cwasm);
      Turn(Deserialized(package.cwasm, ok), Unless(ok, Deserialize, 0))
    else if j == 1 then Turn(LinkerBuilt(m, world.link(h, m)), Unless(world.link(h, m), Link, 0))
    else if j == 2 then
      var ok := world.engine(h, TrapImports);
      Turn(EngineDid(TrapImports, ok), Unless(ok, Link, 1))
    else if j == 3 then
      var ok := world.engine(h, SetFuel);
      Turn(EngineDid(SetFuel, ok), Unless(ok, Instantiate, 0))
    else if j == 4 then Turn(Instantiated(m, world.instantiate(h, m)), Unless(world.instantiate(h, m), Instantiate, 1))
    else if j == 5 then
      var ok := world.engine(h, LookUpProbe);
      Turn(EngineDid(LookUpProbe, ok), Unless(ok, Lookup, 0))
    else if j == 6 then Turn(Probed(false, world.probe(h)), FirstReportFailure(keys, world.probe(h)))
    else if j == 7 then
      var tag := world.send(h, op, true);
      Turn(ChunkSent(op, true, tag), ChunkFailure(true, tag))
    else if j == 8 then Turn(RevokeSignalled(world.signal(h)), Unless(world.signal(h), Revocation, 2))
    else if j == 9 then Turn(RevokeAwaited(world.wait(h)), Unless(world.wait(h), Revocation, 2))
    else if j == 10 then
      var tag := world.send(h, op, false);
      Turn(ChunkSent(op, false, tag), ChunkFailure(false, tag))
    else Turn(Probed(true, world.probe(h)), SecondReportFailure(keys, world.probe(h)))
  }

  /** Where the guest's code is loaded: right after a declined bind, or after the granted one's refusals. */
  function LoadedAt(keys: bool, granted: bool): nat {
    if !granted then 7 else if keys then 12 else 11
  }

  function ManifestFor(plan: GrantPlan, granted: bool): H.GrantManifest {
    if plan.keys > 0 then
      var slot := H.HostCapability(0, 0, H.KeystoreService);
      H.GrantManifest(seq(plan.keys, i => if granted && i == 0 then Some(slot) else None), [], None)
    else
      var slot := H.HostFile(0, 0, H.FilesystemService);
      H.GrantManifest([], seq(plan.files, i => if granted && i == 0 then Some(slot) else None), None)
  }

  /** The turn at position `k` of `t`, once the package is decoded and its plan accepted. */
  ghost function LaterTurn(world: World, package: Signed, plan: GrantPlan, t: seq<Event>, k: nat): Turn
    requires 6 <= k < |t| && k < LoadedAt(plan.keys > 0, IsGrant(t[6])) + 12
  {
    var keys := plan.keys > 0;
    var base := LoadedAt(keys, IsGrant(t[6]));
    if k == 6 || k < base then GrantTurn(world, if keys then H.Keystore else H.Filesystem, t[..k])
    else HostTurn(world, package, ManifestFor(plan, IsGrant(t[6])), keys, t[..k], k - base)
  }

  /** Position `k` of a run that ended in `r` took this turn. */
  ghost predicate Took(turn: Turn, t: seq<Event>, r: Option<Failure>, k: nat)
    requires k < |t|
  {
    t[k] == turn.e && turn.failure == Ending(t, r, k)
  }

  /** The failure position `k` of a run that ended in `r` came to. */
  function Ending(t: seq<Event>, r: Option<Failure>, k: nat): Option<Failure> {
    if k + 1 < |t| then None else r
  }

  /** The package and its plan are good enough for a run to reach position `k`. */
  ghost predicate Reaches(world: World, bytes: seq<byte>, t: seq<Event>, k: nat)
    requires k < |t|
  {
    && (k > 1 ==> world.decode(bytes).Some?)
    && (k > 4 ==> world.parse(world.decode(bytes).value.manifest).Some?)
    && (k > 5 ==>
          k < LoadedAt(world.parse(world.decode(bytes).value.manifest).value.keys > 0, IsGrant(t[6])) + 12)
  }

  ghost function TurnAt(world: World, bytes: seq<byte>, t: seq<Event>, k: nat): Turn
    requires k < |t| && Reaches(world, bytes, t, k)
  {
    if k < 6 then PackageTurn(world, bytes, t[..k])
    else
      var package := world.decode(bytes).value;
      LaterTurn(world, package, world.parse(package.manifest).value, t, k)
  }

  ghost predicate AsTold(world: World, bytes: seq<byte>, t: seq<Event>, r: Option<Failure>, k: nat)
    requires k < |t|
  {
    if !(0 < |bytes| <= 0x20_0000) then t[0].LengthChecked? && |t| == 1 && r == Some(Failure(Package, 1))
    else Reaches(world, bytes, t, k) && Took(TurnAt(world, bytes, t, k), t, r, k)
  }

  // ----- One step -----

  /** The event is the turn's, it passes exactly when the turn has no failure, and is blamed with the turn's. */
  ghost predicate Matches(c: ProbeChecks, e: Event, turn: Turn) {
    && e == turn.e
    && (Passes(c, e) <==> turn.failure.None?)
    && (!Passes(c, e) ==> forall f :: Blames(c, e, f) ==> turn.failure == Some(f))
  }

  lemma SameVerdict(world: World, package: Signed)
    ensures AnyVerifies(world, package) <==> VerifiesUnder(world, package)
  {
    if AnyVerifies(world, package) {
      var i :| 0 <= i < |world.trusted| && world.verify(package, world.trusted[i]);
      assert world.trusted[i] in world.trusted;
    }
    if VerifiesUnder(world, package) {
      var key :| key in world.trusted && world.verify(package, key);
      var i :| 0 <= i < |world.trusted| && world.trusted[i] == key;
    }
  }

  lemma PackageStep(world: World, bytes: seq<byte>, c: ProbeChecks, h: seq<Event>, e: Event)
    requires |h| < 6 && StepOf(e) == (VERIFYING + PLANNING)[|h|] && Honest(world, bytes, h, e)
    requires 0 < |bytes| <= 0x20_0000
    ensures |h| > 1 ==> world.decode(bytes).Some?
    ensures |h| == 5 ==> world.parse(world.decode(bytes).value.manifest).Some?
    ensures Matches(c, e, PackageTurn(world, bytes, h))
  {
    hide AnyVerifies, VerifiesUnder, Tampered, LaunchManifest, PlannedWiring;
    if world.decode(bytes).Some? {
      SameVerdict(world, world.decode(bytes).value);
      SameVerdict(world, Tampered(world.decode(bytes).value));
    }
  }

  lemma GrantStep(world: World, bytes: seq<byte>, c: ProbeChecks, h: seq<Event>, e: Event, asked: H.Interface)
    requires 6 <= |h| < 12 && Honest(world, bytes, h, e) && AskedFor(world, bytes) == Some(asked)
    requires StepOf(e) == [Bind, Rebind, TryGrant, TryList, TryRevoke, TryEncrypt][|h| - 6]
    ensures Matches(c, e, GrantTurn(world, asked, h))
  {
    hide AskedFor, LaunchManifest;
  }

  lemma {:induction false} FirstMissingIs(required: seq<string>, report: string, i: nat, detail: nat)
    requires i <= |required| && forall j :: 0 <= j < i ==> Contains(report, required[j])
    ensures FirstMissing(required, report, i).None? <==>
            forall j :: 0 <= j < |required| ==> Contains(report, required[j])
    ensures detail > 0 && BlamesMarker(required, report, detail) ==> FirstMissing(required, report, i) == Some(detail)
    decreases |required| - i
  {
    hide Contains;
    if i < |required| && Contains(report, required[i]) {
      FirstMissingIs(required, report, i + 1, detail);
    }
  }

  lemma FirstReportStep(keys: bool, c: ProbeChecks, report: Option<string>)
    requires c.required == Required(keys)
    ensures Matches(c, Probed(false, report), Turn(Probed(false, report), FirstReportFailure(keys, report)))
  {
    hide Contains, Required, BlamesMarker;
    if report.Some? {
      FirstMissingIs(c.required, report.value, 0, 0);
      forall f | Blames(c, Probed(false, report), f) && !Passes(c, Probed(false, report))
        ensures FirstReportFailure(keys, report) == Some(f)
      {
        FirstMissingIs(c.required, report.value, 0, f.detail);
        PrefixFirst(c.required, report.value, f.detail);
      }
    }
  }

  lemma PrefixFirst(required: seq<string>, report: string, detail: nat)
    requires BlamesMarker(required, report, detail)
    ensures detail == 0 <==> !("ok: " <= report)
  {
  }

  lemma HostStep(world: World, bytes: seq<byte>, w: Wiring, h: seq<Event>, e: Event, package: Signed,
                 m: H.GrantManifest, j: nat)
    requires j < 12 && StepOf(e) == (HOSTING + (REVOKING + [SecondProbe]))[j] && Honest(world, bytes, h, e)
    requires PlannedWiring(world, bytes) == Some(w) && world.decode(bytes) == Some(package)
    requires LaunchManifest(world, bytes, Granted(h)) == Some(m)
    ensures Matches(ChecksOf(w), e, HostTurn(world, package, m, w == ForKeystore, h, j))
  {
    hide Honest, Matches, HostTurn, PlannedWiring, LaunchManifest, Granted, StepOf;
    if j < 6 {
      LoadStep(world, bytes, ChecksOf(w), h, e, package, m, w == ForKeystore, j);
    } else {
      ProbeStep(world, bytes, w, h, e, package, m, j);
    }
  }

  lemma LoadStep(world: World, bytes: seq<byte>, c: ProbeChecks, h: seq<Event>, e: Event, package: Signed,
                 m: H.GrantManifest, keys: bool, j: nat)
    requires j < 6 && StepOf(e) == HOSTING[j] && Honest(world, bytes, h, e)
    requires world.decode(bytes) == Some(package) && LaunchManifest(world, bytes, Granted(h)) == Some(m)
    ensures Matches(c, e, HostTurn(world, package, m, keys, h, j))
  {
    hide LaunchManifest, PlannedWiring, Granted, AnyVerifies, Tampered, Accepted, Refused;
    hide FirstReportFailure, SecondReportFailure, ChunkFailure, LeftOpen, AskedFor;
  }

  lemma ProbeStep(world: World, bytes: seq<byte>, w: Wiring, h: seq<Event>, e: Event, package: Signed,
                  m: H.GrantManifest, j: nat)
    requires 6 <= j < 12 && StepOf(e) == ([FirstProbe] + REVOKING + [SecondProbe])[j - 6] && Honest(world, bytes, h, e)
    requires PlannedWiring(world, bytes) == Some(w)
    ensures Matches(ChecksOf(w), e, HostTurn(world, package, m, w == ForKeystore, h, j))
  {
    hide LaunchManifest, PlannedWiring, Granted, AnyVerifies, Tampered, Matches, Passes, Blames, Required;
    hide FirstReportFailure, SecondReportFailure, ChunkFailure;
    SecondReportStep(w, world.probe(h));
    FirstReportStep(w == ForKeystore, ChecksOf(w), world.probe(h));
    ChunkStep(ChecksOf(w), ChecksOf(w).openOp, j == 7, world.send(h, ChecksOf(w).openOp, j == 7));
    RevocationStep(ChecksOf(w), world.signal(h), world.wait(h));
  }

  lemma SecondReportStep(w: Wiring, report: Option<string>)
    ensures var turn := Turn(Probed(true, report), SecondReportFailure(w == ForKeystore, report));
            Matches(ChecksOf(w), Probed(true, report), turn)
    ensures ChecksOf(w).required == Required(w == ForKeystore)
  {
    hide Contains;
  }

  lemma ChunkStep(c: ProbeChecks, op: OpenOp, more: bool, tag: Option<nat>)
    ensures Matches(c, ChunkSent(op, more, tag), Turn(ChunkSent(op, more, tag), ChunkFailure(more, tag)))
  {
  }

  lemma RevocationStep(c: ProbeChecks, signalled: bool, awaited: bool)
    ensures Matches(c, RevokeSignalled(signalled), Turn(RevokeSignalled(signalled), Unless(signalled, Revocation, 2)))
    ensures Matches(c, RevokeAwaited(awaited), Turn(RevokeAwaited(awaited), Unless(awaited, Revocation, 2)))
  {
  }

  lemma ManifestIs(world: World, bytes: seq<byte>, granted: bool)
    requires PlannedWiring(world, bytes).Some?
    ensures world.decode(bytes).Some? && world.parse(world.decode(bytes).value.manifest).Some?
    ensures var plan := world.parse(world.decode(bytes).value.manifest).value;
            && LaunchManifest(world, bytes, granted) == Some(ManifestFor(plan, granted))
            && (PlannedWiring(world, bytes) == Some(ForKeystore) <==> plan.keys > 0)
            && AskedFor(world, bytes) == Some(if plan.keys > 0 then H.Keystore else H.Filesystem)
  {
    var plan := world.parse(world.decode(bytes).value.manifest).value;
    if plan.keys > 0 {
      assert KeyManifest(plan.keys, granted) == ManifestFor(plan, granted);
    } else {
      assert FileManifest(plan.files, granted) == ManifestFor(plan, granted);
    }
  }

  // ----- A whole run -----

  lemma TookIt(c: ProbeChecks, turn: Turn, t: seq<Event>, r: Option<Failure>, k: nat)
    requires k < |t| && Matches(c, t[k], turn)
    requires k < |t| - 1 || r.None? ==> Passes(c, t[k])
    requires k == |t| - 1 && r.Some? ==> !Passes(c, t[k]) && Blames(c, t[k], r.value)
    ensures Took(turn, t, r, k)
  {
    hide Passes, Blames;
  }

  /** Position `k` of a run follows its script, and passes unless the run failed there. */
  lemma At(world: World, bytes: seq<byte>, t: seq<Event>, r: Option<Failure>, k: nat)
    requires FollowsScript(world, bytes, t, r) && k < |t|
    ensures var w := PlannedWiring(world, bytes);
            var script := VERIFYING + (PLANNING + Rest(w, Granted(t)));
            && k < |script| && StepOf(t[k]) == script[k] && Honest(world, bytes, t[..k], t[k])
            && (k < |t| - 1 || r.None? ==> Passes(ChecksFor(w), t[k]))
            && (k == |t| - 1 && r.Some? ==> !Passes(ChecksFor(w), t[k]) && Blames(ChecksFor(w), t[k], r.value))
  {
    hide Honest, StepOf, Passes, Blames, Rest, ChecksFor, Granted, PlannedWiring;
    var w := PlannedWiring(world, bytes);
    assert Followed(world, bytes, t, 0 + k, (VERIFYING + (PLANNING + Rest(w, Granted(t))))[k]);
  }

  lemma PackagePosition(world: World, bytes: seq<byte>, t: seq<Event>, r: Option<Failure>, k: nat)
    requires FollowsScript(world, bytes, t, r) && k < |t| && k < 6 && 0 < |bytes| <= 0x20_0000
    ensures AsTold(world, bytes, t, r, k)
  {
    hide FollowsScript, Honest, Passes, Blames, Rest, ChecksFor, Granted, PlannedWiring, PackageTurn, StepOf;
    At(world, bytes, t, r, k);
    var c := ChecksFor(PlannedWiring(world, bytes));
    PackageStep(world, bytes, c, t[..k], t[k]);
    TookIt(c, PackageTurn(world, bytes, t[..k]), t, r, k);
  }

  lemma BadLength(world: World, bytes: seq<byte>, t: seq<Event>, r: Option<Failure>)
    requires FollowsScript(world, bytes, t, r) && !(0 < |bytes| <= 0x20_0000)
    ensures t != [] && t[0].LengthChecked? && |t| == 1 && r == Some(Failure(Package, 1))
  {
    hide PlannedWiring, Granted, Rest, ChecksFor;
    assert t != [] by {
      hide Followed, Passes, Blames;
    }
    At(world, bytes, t, r, 0);
  }

  lemma ScriptAt(w: Wiring, granted: bool, k: nat)
    requires 6 <= k < |VERIFYING + (PLANNING + Serving(w, granted))|
    ensures var base := LoadedAt(w == ForKeystore, granted);
            var step := (VERIFYING + (PLANNING + Serving(w, granted)))[k];
            && k < base + 12
            && (k < base ==> k < 12 && step == [Bind, Rebind, TryGrant, TryList, TryRevoke, TryEncrypt][k - 6])
            && (k >= base ==> step == (HOSTING + (REVOKING + [SecondProbe]))[k - base])
  {
  }

  lemma ScriptLength(w: Wiring, granted: bool)
    ensures |VERIFYING + (PLANNING + Serving(w, granted))| == LoadedAt(w == ForKeystore, granted) + 12
  {
  }

  lemma LaterPosition(world: World, bytes: seq<byte>, t: seq<Event>, r: Option<Failure>, k: nat)
    requires FollowsScript(world, bytes, t, r) && 6 <= k < |t| && 0 < |bytes| <= 0x20_0000
    ensures AsTold(world, bytes, t, r, k)
  {
    hide FollowsScript, Honest, Passes, Blames, PlannedWiring, LaterTurn, StepOf, Serving, AskedFor, ChecksOf;
    At(world, bytes, t, r, k);
    var w := PlannedWiring(world, bytes).value;
    ScriptAt(w, Granted(t), k);
    ManifestIs(world, bytes, Granted(t));
    var package := world.decode(bytes).value;
    var plan := world.parse(package.manifest).value;
    LaterStep(world, bytes, w, t, k, package, plan);
    TookIt(ChecksOf(w), LaterTurn(world, package, plan, t, k), t, r, k);
  }

  lemma LaterStep(world: World, bytes: seq<byte>, w: Wiring, t: seq<Event>, k: nat, package: Signed, plan: GrantPlan)
    requires PlannedWiring(world, bytes) == Some(w) && (w == ForKeystore <==> plan.keys > 0)
    requires world.decode(bytes) == Some(package)
    requires LaunchManifest(world, bytes, Granted(t)) == Some(ManifestFor(plan, Granted(t)))
    requires AskedFor(world, bytes) == Some(if plan.keys > 0 then H.Keystore else H.Filesystem)
    requires 6 <= k < |t| && k < LoadedAt(plan.keys > 0, IsGrant(t[6])) + 12 && Honest(world, bytes, t[..k], t[k])
    requires var base := LoadedAt(w == ForKeystore, Granted(t));
             && k < base + 12
             && (k < base ==> k < 12 && StepOf(t[k]) == [Bind, Rebind, TryGrant, TryList, TryRevoke, TryEncrypt][k - 6])
             && (k >= base ==> StepOf(t[k]) == (HOSTING + (REVOKING + [SecondProbe]))[k - base])
    ensures Matches(ChecksOf(w), t[k], LaterTurn(world, package, plan, t, k))
  {
    hide Honest, Matches, GrantTurn, HostTurn, PlannedWiring, LaunchManifest, StepOf, AskedFor, ManifestFor, ChecksOf;
    var base := LoadedAt(w == ForKeystore, Granted(t));
    if k < base {
      GrantStep(world, bytes, ChecksOf(w), t[..k], t[k], if plan.keys > 0 then H.Keystore else H.Filesystem);
    } else {
      assert Granted(t[..k]) == Granted(t);
      HostStep(world, bytes, w, t[..k], t[k], package, ManifestFor(plan, Granted(t)), k - base);
    }
  }

  /** Every run of the program is the table's: each event is the turn after the events before it, every turn
      but the last went well, and the run ended in the last one's failure, or went through all of them. */
  lemma EveryRunIsTheTables(world: World, bytes: seq<byte>, t: seq<Event>, r: Option<Failure>)
    requires FollowsScript(world, bytes, t, r)
    ensures t != [] && forall k :: 0 <= k < |t| ==> AsTold(world, bytes, t, r, k)
    ensures r.None? ==>
              && PlannedWiring(world, bytes).Some?
              && |t| == LoadedAt(PlannedWiring(world, bytes) == Some(ForKeystore), Granted(t)) + 12
  {
    hide AsTold, PlannedWiring, Granted, Serving, ChecksFor, LoadedAt;
    Ends(world, bytes, t, r);
    forall k | 0 <= k < |t| ensures AsTold(world, bytes, t, r, k) {
      if !(0 < |bytes| <= 0x20_0000) {
        BadLength(world, bytes, t, r);
        BadLengthTold(world, bytes, t, r, k);
      } else if k < 6 {
        PackagePosition(world, bytes, t, r, k);
      } else {
        LaterPosition(world, bytes, t, r, k);
      }
    }
  }

  lemma BadLengthTold(world: World, bytes: seq<byte>, t: seq<Event>, r: Option<Failure>, k: nat)
    requires !(0 < |bytes| <= 0x20_0000) && t != [] && t[0].LengthChecked? && |t| == 1 && k < 1
    requires r == Some(Failure(Package, 1))
    ensures AsTold(world, bytes, t, r, k)
  {
  }

  lemma Ends(world: World, bytes: seq<byte>, t: seq<Event>, r: Option<Failure>)
    requires FollowsScript(world, bytes, t, r)
    ensures t != []
    ensures var keys := PlannedWiring(world, bytes) == Some(ForKeystore);
            && (|t| > 6 || r.None? ==> PlannedWiring(world, bytes).Some? && |t| <= LoadedAt(keys, Granted(t)) + 12)
            && (r.None? ==> |t| == LoadedAt(keys, Granted(t)) + 12)
  {
    hide Followed, Passes, Blames, ChecksFor, Granted, Serving, PlannedWiring, LoadedAt;
    if r.None? {
      LR.PlanIsWired(world, bytes, t);
    }
    if PlannedWiring(world, bytes).Some? {
      ScriptLength(PlannedWiring(world, bytes).value, Granted(t));
    }
  }

  /** After one history, one turn. */
  lemma SameTurn(world: World, bytes: seq<byte>, t: seq<Event>, t': seq<Event>, k: nat)
    requires k < |t| && k < |t'| && t[..k] == t'[..k]
    requires Reaches(world, bytes, t, k) && Reaches(world, bytes, t', k)
    ensures TurnAt(world, bytes, t, k) == TurnAt(world, bytes, t', k)
  {
    hide PackageTurn, GrantTurn, HostTurn, ManifestFor;
    if k > 6 {
      assert t[6] == t[..k][6] == t'[..k][6] == t'[6];
    }
  }

  lemma SameNext(world: World, bytes: seq<byte>, t: seq<Event>, r: Option<Failure>, t': seq<Event>,
                 r': Option<Failure>, k: nat)
    requires k < |t| && k < |t'| && t[..k] == t'[..k] && 0 < |bytes| <= 0x20_0000
    requires AsTold(world, bytes, t, r, k) && AsTold(world, bytes, t', r', k)
    ensures t[k] == t'[k] && Ending(t, r, k) == Ending(t', r', k)
  {
    hide Reaches, TurnAt, Ending;
    SameTurn(world, bytes, t, t', k);
  }

  predicate Keys(world: World, bytes: seq<byte>)
    requires world.decode(bytes).Some?
  {
    var plan := world.parse(world.decode(bytes).value.manifest);
    plan.Some? && plan.value.keys > 0
  }

  lemma {:induction false} SamePrefix(world: World, bytes: seq<byte>, t: seq<Event>, r: Option<Failure>, t': seq<Event>,
                                      r': Option<Failure>, k: nat)
    requires FollowsScript(world, bytes, t, r) && FollowsScript(world, bytes, t', r')
    requires k <= |t| && k <= |t'| && 0 < |bytes| <= 0x20_0000
    ensures t[..k] == t'[..k]
    ensures k > 0 ==> Ending(t, r, k - 1) == Ending(t', r', k - 1)
  {
    hide FollowsScript, AsTold, Ending, LoadedAt, PlannedWiring;
    if k > 0 {
      SamePrefix(world, bytes, t, r, t', r', k - 1);
      EveryRunIsTheTables(world, bytes, t, r);
      EveryRunIsTheTables(world, bytes, t', r');
      SameNext(world, bytes, t, r, t', r', k - 1);
      assert t[..k] == t[..k - 1] + [t[k - 1]] && t'[..k] == t'[..k - 1] + [t'[k - 1]];
    }
  }

  /** The launch is decided by what everyone else answers: two runs in one world take the same steps and end
      the same. */
  lemma RunsAreDetermined(world: World, bytes: seq<byte>, t: seq<Event>, r: Option<Failure>, t': seq<Event>,
                          r': Option<Failure>)
    requires FollowsScript(world, bytes, t, r) && FollowsScript(world, bytes, t', r')
    ensures r == r' && (0 < |bytes| <= 0x20_0000 ==> t == t')
  {
    if 0 < |bytes| <= 0x20_0000 {
      if |t| <= |t'| {
        ShorterIsWhole(world, bytes, t, r, t', r');
      } else {
        ShorterIsWhole(world, bytes, t', r', t, r);
      }
    } else {
      BadLength(world, bytes, t, r);
      BadLength(world, bytes, t', r');
    }
  }

  lemma ShorterIsWhole(world: World, bytes: seq<byte>, t: seq<Event>, r: Option<Failure>, t': seq<Event>,
                       r': Option<Failure>)
    requires FollowsScript(world, bytes, t, r) && FollowsScript(world, bytes, t', r')
    requires |t| <= |t'| && 0 < |bytes| <= 0x20_0000
    ensures t == t' && r == r'
  {
    hide FollowsScript, LoadedAt, PlannedWiring;
    Ends(world, bytes, t, r);
    Ends(world, bytes, t', r');
    SamePrefix(world, bytes, t, r, t', r', |t|);
    assert t[..|t|] == t;
    assert t'[..|t'|] == t';
  }

  /** Once the binder grants, the guest's code is loaded only after a second bind was declined, a grant of the
      program's own was refused with status 1, listing showed nothing and a revocation of its own did not
      succeed; and with a keystore, after an encryption was denied with status 1. */
  lemma GrantSurvivesRefusals(world: World, bytes: seq<byte>, t: seq<Event>, r: Option<Failure>, i: nat)
    requires FollowsScript(world, bytes, t, r) && i < |t| && t[i].Deserialized?
    requires |t| > 6 && t[6].Bound? && t[6].bound == Some(true)
    ensures |t| > 11 && t[6].dest == 2 && t[6].asked in {H.Keystore, H.Filesystem}
    ensures t[7] == Bound(5, t[6].asked, Some(false)) && t[8] == GrantTried(Some(1)) && t[9] == Listed(Some(None))
    ensures t[10] == RevokeTried(world.revoke(t[..10])) && world.revoke(t[..10]) != Some(0)
    ensures if t[6].asked == H.Keystore then t[11] == EncryptTried(Some(K.RemoteDenied(1))) && i == 12 else i == 11
  {
    hide FollowsScript, PlannedWiring, AsTold, Keys;
    EveryRunIsTheTables(world, bytes, t, r);
    LoadedAfterGrant(world, bytes, t, r, i);
    BoundAtSix(world, bytes, t, r);
    RefusedAt(world, bytes, t, r, 7);
    RefusedAt(world, bytes, t, r, 8);
    RefusedAt(world, bytes, t, r, 9);
    RefusedAt(world, bytes, t, r, 10);
    if i == 12 {
      RefusedAt(world, bytes, t, r, 11);
    }
  }

  lemma RefusedAt(world: World, bytes: seq<byte>, t: seq<Event>, r: Option<Failure>, k: nat)
    requires 7 <= k < |t| - 1 && t[6].Bound? && t[6].bound == Some(true)
    requires AsTold(world, bytes, t, r, k) && AsTold(world, bytes, t, r, 6)
    requires world.decode(bytes).Some? && k < if Keys(world, bytes) then 12 else 11
    ensures var turn := GrantTurn(world, t[6].asked, t[..k]); t[k] == turn.e && turn.failure.None?
  {
    hide GrantTurn, HostTurn, PackageTurn, ManifestFor;
    BoundAtSix(world, bytes, t, r);
  }

  lemma BoundAtSix(world: World, bytes: seq<byte>, t: seq<Event>, r: Option<Failure>)
    requires |t| > 6 && t[6].Bound? && AsTold(world, bytes, t, r, 6)
    ensures world.decode(bytes).Some?
    ensures t[6].dest == 2 && t[6].asked == if Keys(world, bytes) then H.Keystore else H.Filesystem
  {
    hide HostTurn, PackageTurn, ManifestFor;
  }

  lemma LoadedAfterGrant(world: World, bytes: seq<byte>, t: seq<Event>, r: Option<Failure>, i: nat)
    requires 6 < |t| && i < |t| && t[i].Deserialized? && t[6].Bound? && t[6].bound == Some(true)
    requires AsTold(world, bytes, t, r, i) && AsTold(world, bytes, t, r, 6)
    ensures world.decode(bytes).Some? && t[6].asked == (if Keys(world, bytes) then H.Keystore else H.Filesystem)
    ensures i == if Keys(world, bytes) then 12 else 11
  {
    hide ManifestFor;
    BoundAtSix(world, bytes, t, r);
  }
}
