/** One confined launch, from the mapped package to the outcome signal, with everything outside the
    process left to an arbitrary `World`. The methods are the program; the checklist, what passes each
    of its steps and what each failure is blamed on are data, and every run follows the checklist
    exactly as far as its first failing step. */
module Launch {
  import opened Prelude
  import H = Host
  import K = Keystore

  const DEST_CPTR: nat := 2
  const SUCCESS_CPTR: nat := 3
  const FAILURE_CPTR: nat := 4
  const PROBE_CPTR: nat := 5
  const PACKAGE_MAX_LEN: nat := 0x20_0000

  datatype Stage =
    | Done | Grant | Attenuation | Deserialize | Link | Instantiate | Lookup | Call | Verdict
    | Package | Manifest | Revocation

  datatype Failure = Failure(stage: Stage, detail: nat)

  datatype Signed = Signed(manifest: seq<byte>, cwasm: seq<byte>, signature: seq<byte>)

  /** How many slots of each resource the manifest declares, and whether it asks for the clock. */
  datatype GrantPlan = GrantPlan(keys: nat, files: nat, clock: bool)

  datatype Wiring = ForKeystore | ForFilesystem

  /** The operation left open at the service during the revocation. */
  datatype OpenOp = OpenSign | OpenRead

  /** What the two reports must show, and what to leave open between them. */
  datatype ProbeChecks = ProbeChecks(required: seq<string>, openOp: OpenOp, refused: string)

  datatype EngineStep = TrapImports | SetFuel | LookUpProbe

  /** What the program did and was answered. `None` is an error return. */
  datatype Event =
    | LengthChecked(len: nat)
    | Decoded(package: Option<Signed>)
    | ForgedVerified(forged: Signed, accepted: bool)
    | RealVerified(signed: Signed, accepted: bool)
    | Parsed(manifest: seq<byte>, plan: Option<GrantPlan>)
    | PlanChecked(read: GrantPlan)
    | Bound(dest: nat, asked: H.Interface, bound: Option<bool>)
    | GrantTried(status: Option<nat>)
    | Listed(entry: Option<Option<nat>>)
    | RevokeTried(status: Option<nat>)
    | EncryptTried(refusal: Option<K.KeystoreError>)  // `None`: the encryption succeeded
    | Deserialized(cwasm: seq<byte>, ok: bool)
    | LinkerBuilt(linked: H.GrantManifest, ok: bool)
    | EngineDid(step: EngineStep, ok: bool)
    | Instantiated(hosted: H.GrantManifest, ok: bool)
    | Probed(second: bool, report: Option<string>)
    | ChunkSent(op: OpenOp, more: bool, tag: Option<nat>)
    | RevokeSignalled(ok: bool)
    | RevokeAwaited(ok: bool)

  /** Everyone else. Each answer may depend on all that has happened; the signature check and the two
      parsers are functions of their input. */
  datatype World = World(
    trusted: seq<seq<byte>>,
    decode: seq<byte> -> Option<Signed>,
    verify: (Signed, seq<byte>) -> bool,
    parse: seq<byte> -> Option<GrantPlan>,
    bind: (seq<Event>, nat, H.Interface) -> Option<bool>,
    grant: seq<Event> -> Option<nat>,
    list: seq<Event> -> Option<Option<nat>>,
    revoke: seq<Event> -> Option<nat>,
    encrypt: seq<Event> -> Option<K.KeystoreError>,
    deserialize: (seq<Event>, seq<byte>) -> bool,
    link: (seq<Event>, H.GrantManifest) -> bool,
    instantiate: (seq<Event>, H.GrantManifest) -> bool,
    engine: (seq<Event>, EngineStep) -> bool,
    probe: seq<Event> -> Option<string>,
    send: (seq<Event>, OpenOp, bool) -> Option<nat>,
    signal: seq<Event> -> bool,
    wait: seq<Event> -> bool)

  // ----- The checklist -----

  datatype Step =
    | CheckLength | DecodePackage | VerifyForged | VerifyReal | ParseManifest | CheckPlan
    | Bind | Rebind | TryGrant | TryList | TryRevoke | TryEncrypt
    | DeserializeCode | BuildLinker | Engine(which: EngineStep) | InstantiateGuest | FirstProbe
    | OpenChunk | SignalRevoke | AwaitRevoke | CloseChunk | SecondProbe

  function StepOf(e: Event): Step {
    match e
    case LengthChecked(_) => CheckLength
    case Decoded(_) => DecodePackage
    case ForgedVerified(_, _) => VerifyForged
    case RealVerified(_, _) => VerifyReal
    case Parsed(_, _) => ParseManifest
    case PlanChecked(_) => CheckPlan
    case Bound(dest, _, _) => if dest == DEST_CPTR then Bind else Rebind
    case GrantTried(_) => TryGrant
    case Listed(_) => TryList
    case RevokeTried(_) => TryRevoke
    case EncryptTried(_) => TryEncrypt
    case Deserialized(_, _) => DeserializeCode
    case LinkerBuilt(_, _) => BuildLinker
    case EngineDid(step, _) => Engine(step)
    case Instantiated(_, _) => InstantiateGuest
    case Probed(second, _) => if second then SecondProbe else FirstProbe
    case ChunkSent(_, more, _) => if more then OpenChunk else CloseChunk
    case RevokeSignalled(_) => SignalRevoke
    case RevokeAwaited(_) => AwaitRevoke
  }

  const VERIFYING: seq<Step> := [CheckLength, DecodePackage, VerifyForged, VerifyReal]

  const PLANNING: seq<Step> := [ParseManifest, CheckPlan]

  function Granting(granted: bool): seq<Step> {
    [Bind] + if granted then [Rebind, TryGrant, TryList, TryRevoke] else []
  }

  function Attenuating(w: Wiring, granted: bool): seq<Step> {
    if w == ForKeystore && granted then [TryEncrypt] else []
  }

  const HOSTING: seq<Step> :=
    [DeserializeCode, BuildLinker, Engine(TrapImports), Engine(SetFuel), InstantiateGuest, Engine(LookUpProbe),
     FirstProbe]

  const REVOKING: seq<Step> := [OpenChunk, SignalRevoke, AwaitRevoke, CloseChunk]

  function Serving(w: Wiring, granted: bool): seq<Step> {
    Granting(granted) + (Attenuating(w, granted) + (HOSTING + (REVOKING + [SecondProbe])))
  }

  /** The one wiring a plan can have: some slots of exactly one resource, and no clock. */
  function WiringOf(plan: GrantPlan): Option<Wiring> {
    if plan.clock || (plan.keys > 0 <==> plan.files > 0) then None
    else Some(if plan.keys > 0 then ForKeystore else ForFilesystem)
  }

  function InterfaceOf(w: Wiring): H.Interface {
    if w == ForKeystore then H.Keystore else H.Filesystem
  }

  function ChecksOf(w: Wiring): ProbeChecks {
    match w
    case ForKeystore => ProbeChecks(["keystore.open(1)=none"], OpenSign, "keystore denied")
    case ForFilesystem =>
      ProbeChecks(["oversized write=invalid", "content intact", "filesystem.open(1)=none"], OpenRead, "\"access\"")
  }

  predicate Contains(text: string, marker: string) {
    exists i: nat | i <= |text| :: MarkerAt(text, marker, i)
  }

  predicate MarkerAt(text: string, marker: string, i: nat)
    requires i <= |text|
  {
    marker <= text[i..]
  }

  predicate Accepted(required: seq<string>, report: string) {
    "ok: " <= report && forall i | 0 <= i < |required| :: Contains(report, required[i])
  }

  predicate Refused(refused: string, report: string) {
    "error: " <= report && Contains(report, refused)
  }

  /** The status a reply label carries: its low sixteen bits. */
  function StatusIn(tag: nat): nat {
    tag % 0x1_0000
  }

  predicate Passes(c: ProbeChecks, e: Event) {
    match e
    case LengthChecked(len) => 0 < len <= PACKAGE_MAX_LEN
    case Decoded(package) => package.Some?
    case ForgedVerified(_, accepted) => !accepted
    case RealVerified(_, accepted) => accepted
    case Parsed(_, plan) => plan.Some?
    case PlanChecked(plan) => WiringOf(plan).Some?
    case Bound(dest, _, bound) => if dest == DEST_CPTR then bound.Some? else bound == Some(false)
    case GrantTried(status) => status == Some(K.STATUS_ACCESS)
    case Listed(entry) => entry == Some(None)
    case RevokeTried(status) => status != Some(K.STATUS_OK)
    case EncryptTried(refusal) => refusal == Some(K.RemoteDenied(K.STATUS_ACCESS))
    case Deserialized(_, ok) => ok
    case LinkerBuilt(_, ok) => ok
    case EngineDid(_, ok) => ok
    case Instantiated(_, ok) => ok
    case Probed(second, report) =>
      report.Some? && if second then Refused(c.refused, report.value) else Accepted(c.required, report.value)
    case ChunkSent(_, more, tag) =>
      tag.Some? && StatusIn(tag.value) == if more then K.STATUS_OK else K.STATUS_ACCESS
    case RevokeSignalled(ok) => ok
    case RevokeAwaited(ok) => ok
  }

  /** What the outcome signal says of a step that did not pass. */
  ghost predicate Blames(c: ProbeChecks, e: Event, f: Failure) {
    match e
    case LengthChecked(_) => f == Failure(Package, 1)
    case Decoded(_) => f == Failure(Package, 2)
    case ForgedVerified(_, _) => f == Failure(Package, 3)
    case RealVerified(_, _) => f == Failure(Package, 4)
    case Parsed(_, _) => f == Failure(Manifest, 1)
    case PlanChecked(plan) =>
      f == Failure(Manifest, if plan.clock then 4 else if plan.keys == 0 && plan.files == 0 then 2 else 3)
    case Bound(_, _, bound) => f == Failure(Grant, if bound.None? then 1 else 2)
    case GrantTried(_) => f == Failure(Grant, 3)
    case Listed(_) => f == Failure(Grant, 4)
    case RevokeTried(_) => f == Failure(Grant, 5)
    case EncryptTried(refusal) =>
      f == Failure(Attenuation, match refusal
                                case None => 0x200
                                case Some(RemoteDenied(status)) => status
                                case Some(_) => 0x100)
    case Deserialized(_, _) => f == Failure(Deserialize, 0)
    case LinkerBuilt(_, _) => f == Failure(Link, 0)
    case EngineDid(step, _) =>
      f == (match step
            case TrapImports => Failure(Link, 1)
            case SetFuel => Failure(Instantiate, 0)
            case LookUpProbe => Failure(Lookup, 0))
    case Instantiated(_, _) => f == Failure(Instantiate, 1)
    case Probed(second, report) =>
      if report.None? then f.stage == Call && f.detail == if second then 1 else 0
      else if second then f == Failure(Revocation, 3)
      else f.stage == Verdict && BlamesMarker(c.required, report.value, f.detail)
    case ChunkSent(_, _, None) => f == Failure(Revocation, 1)
    case ChunkSent(_, more, Some(tag)) => f == Failure(Revocation, if more then 1 else OrBit8(StatusIn(tag)))
    case RevokeSignalled(_) => f == Failure(Revocation, 2)
    case RevokeAwaited(_) => f == Failure(Revocation, 2)
  }

  /** `detail` is 0 for the prefix, else one past the first missing marker. */
  ghost predicate BlamesMarker(required: seq<string>, report: string, detail: nat) {
    if detail == 0 then !("ok: " <= report)
    else
      && "ok: " <= report
      && detail <= |required| && !Contains(report, required[detail - 1])
      && forall i :: 0 <= i < detail - 1 ==> Contains(report, required[i])
  }

  /** The plan of the package in `bytes`, if it is well formed and its manifest parses. */
  function PlanOf(world: World, bytes: seq<byte>): Option<GrantPlan> {
    match world.decode(bytes)
    case None => None
    case Some(package) => world.parse(package.manifest)
  }

  function PlannedWiring(world: World, bytes: seq<byte>): Option<Wiring> {
    match PlanOf(world, bytes)
    case None => None
    case Some(plan) => WiringOf(plan)
  }

  /** The interface whose slot is asked for, and the operation left open: the planned resource's. */
  function AskedFor(world: World, bytes: seq<byte>): Option<H.Interface> {
    match PlannedWiring(world, bytes)
    case None => None
    case Some(w) => Some(InterfaceOf(w))
  }

  function LeftOpen(world: World, bytes: seq<byte>): Option<OpenOp> {
    match PlannedWiring(world, bytes)
    case None => None
    case Some(w) => Some(ChecksOf(w).openOp)
  }

  /** `slots`: every declared role keeps its index; at most the first is backed. */
  function Slots<T>(declared: nat, granted: bool, grant: T): seq<Option<T>> {
    seq(declared, i => if granted && i == 0 then Some(grant) else None)
  }

  function KeyManifest(declared: nat, granted: bool): H.GrantManifest {
    H.GrantManifest(Slots(declared, granted, H.HostCapability(0, 0, H.KeystoreService)), [], None)
  }

  function FileManifest(declared: nat, granted: bool): H.GrantManifest {
    H.GrantManifest([], Slots(declared, granted, H.HostFile(0, 0, H.FilesystemService)), None)
  }

  /** The manifest a plan calls for, given what the binder said. */
  function LaunchManifest(world: World, bytes: seq<byte>, granted: bool): Option<H.GrantManifest> {
    match PlannedWiring(world, bytes)
    case None => None
    case Some(ForKeystore) => Some(KeyManifest(PlanOf(world, bytes).value.keys, granted))
    case Some(ForFilesystem) => Some(FileManifest(PlanOf(world, bytes).value.files, granted))
  }

  /** The binder granted the one slot this run asked for, right after the plan was accepted. */
  predicate Granted(t: seq<Event>) {
    |t| > |VERIFYING| + |PLANNING| && IsGrant(t[|VERIFYING| + |PLANNING|])
  }

  predicate IsGrant(e: Event) {
    e.Bound? && e.dest == DEST_CPTR && e.bound == Some(true)
  }

  predicate AnyVerifies(world: World, package: Signed) {
    exists i | 0 <= i < |world.trusted| :: world.verify(package, world.trusted[i])
  }

  /** The copy with the lowest bit of the code's last byte flipped; an empty code stays as it is. */
  function Tampered(package: Signed): Signed {
    if package.cwasm == [] then package else
    var last := package.cwasm[|package.cwasm| - 1];
    package.(cwasm := package.cwasm[|package.cwasm| - 1 := if last % 2 == 0 then last + 1 else last - 1])
  }

  /** After history `h`, the event records what really was handed over and really was answered. */
  ghost predicate Honest(world: World, bytes: seq<byte>, h: seq<Event>, e: Event) {
    var package := world.decode(bytes);
    match e
    case LengthChecked(len) => if 0 < |bytes| <= PACKAGE_MAX_LEN then len == |bytes| else !(0 < len <= PACKAGE_MAX_LEN)
    case Decoded(p) => p == package
    case ForgedVerified(p, accepted) =>
      package.Some? && p == Tampered(package.value) && accepted == AnyVerifies(world, p)
    case RealVerified(p, accepted) => package == Some(p) && accepted == AnyVerifies(world, p)
    case Parsed(manifest, plan) => package.Some? && manifest == package.value.manifest && plan == world.parse(manifest)
    case PlanChecked(plan) => package.Some? && Some(plan) == world.parse(package.value.manifest)
    case Bound(dest, asked, bound) =>
      dest in {DEST_CPTR, PROBE_CPTR} && bound == world.bind(h, dest, asked) && AskedFor(world, bytes) == Some(asked)
    case GrantTried(status) => status == world.grant(h)
    case Listed(entry) => entry == world.list(h)
    case RevokeTried(status) => status == world.revoke(h)
    case EncryptTried(refusal) => refusal == world.encrypt(h)
    case Deserialized(cwasm, ok) => package.Some? && cwasm == package.value.cwasm && ok == world.deserialize(h, cwasm)
    case LinkerBuilt(linked, ok) =>
      ok == world.link(h, linked) && LaunchManifest(world, bytes, Granted(h)) == Some(linked)
    case Instantiated(hosted, ok) =>
      ok == world.instantiate(h, hosted) && LaunchManifest(world, bytes, Granted(h)) == Some(hosted)
    case EngineDid(step, ok) => ok == world.engine(h, step)
    case Probed(_, report) => report == world.probe(h)
    case ChunkSent(op, more, tag) => tag == world.send(h, op, more) && LeftOpen(world, bytes) == Some(op)
    case RevokeSignalled(ok) => ok == world.signal(h)
    case RevokeAwaited(ok) => ok == world.wait(h)
  }

  /** Between `before` and `after` the program followed `script`: in order, honestly, every step passing,
      to the end if `r` is `None`, else up to a last step that did not pass and that `r` blames. */
  ghost predicate Ran(world: World, bytes: seq<byte>, c: ProbeChecks, before: seq<Event>, after: seq<Event>,
                      script: seq<Step>, r: Option<Failure>) {
    && before <= after
    && |after| - |before| <= |script|
    && (forall k :: 0 <= k < |after| - |before| ==> Followed(world, bytes, after, |before| + k, script[k]))
    && (forall i :: |before| <= i < |after| - (if r.Some? then 1 else 0) ==> Passes(c, after[i]))
    && match r
       case None => |after| - |before| == |script|
       case Some(f) => |before| < |after| && !Passes(c, after[|after| - 1]) && Blames(c, after[|after| - 1], f)
  }

  ghost predicate Followed(world: World, bytes: seq<byte>, t: seq<Event>, i: nat, step: Step)
    requires i < |t|
  {
    StepOf(t[i]) == step && Honest(world, bytes, t[..i], t[i])
  }

  // ----- Putting segments together -----

  lemma Then(world: World, bytes: seq<byte>, c: ProbeChecks, a: seq<Event>, b: seq<Event>, d: seq<Event>,
             first: seq<Step>, rest: seq<Step>, r: Option<Failure>)
    requires Ran(world, bytes, c, a, b, first, None) && Ran(world, bytes, c, b, d, rest, r)
    ensures Ran(world, bytes, c, a, d, first + rest, r)
  {
    hide Honest, StepOf, Passes, Blames;
    forall k | 0 <= k < |d| - |a| ensures Followed(world, bytes, d, |a| + k, (first + rest)[k]) {
      if k < |first| {
        assert Followed(world, bytes, b, |a| + k, first[k]);
        assert d[..|a| + k] == b[..|a| + k];
      } else {
        assert Followed(world, bytes, d, |b| + (k - |first|), rest[k - |first|]);
      }
    }
    forall i | |a| <= i < |d| - (if r.Some? then 1 else 0) ensures Passes(c, d[i]) {
      if i < |b| {
        assert Passes(c, b[i]) && d[i] == b[i];
      }
    }
  }

  lemma Stops(world: World, bytes: seq<byte>, c: ProbeChecks, a: seq<Event>, b: seq<Event>,
              first: seq<Step>, rest: seq<Step>, f: Failure)
    requires Ran(world, bytes, c, a, b, first, Some(f))
    ensures Ran(world, bytes, c, a, b, first + rest, Some(f))
  {
    hide Honest, StepOf, Passes, Blames;
    forall k | 0 <= k < |b| - |a| ensures Followed(world, bytes, b, |a| + k, (first + rest)[k]) {
      assert Followed(world, bytes, b, |a| + k, first[k]);
    }
  }

  /** The start of a segment, before its first step. */
  lemma Begin(world: World, bytes: seq<byte>, c: ProbeChecks, a: seq<Event>, script: seq<Step>)
    ensures Ran(world, bytes, c, a, a, script[..0], None)
  {
  }

  /** One more step of a segment: it goes on, or it ends here. */
  lemma Extend(world: World, bytes: seq<byte>, c: ProbeChecks, a: seq<Event>, h: seq<Event>, e: Event,
               script: seq<Step>, n: nat, r: Option<Failure>)
    requires n < |script| && Ran(world, bytes, c, a, h, script[..n], None)
    requires StepOf(e) == script[n] && Honest(world, bytes, h, e)
    requires r.None? <==> Passes(c, e)
    requires r.Some? ==> Blames(c, e, r.value)
    ensures r.None? ==> Ran(world, bytes, c, a, h + [e], script[..n + 1], r)
    ensures r.Some? || n + 1 == |script| ==> Ran(world, bytes, c, a, h + [e], script, r)
  {
    assert script[..|script|] == script;
    hide Honest, StepOf, Passes, Blames;
    var t := h + [e];
    assert t[..|h|] == h;
    forall k | 0 <= k < |t| - |a| ensures Followed(world, bytes, t, |a| + k, script[k]) {
      if k < n {
        assert Followed(world, bytes, h, |a| + k, script[..n][k]);
        assert t[..|a| + k] == h[..|a| + k];
      }
    }
    forall i | |a| <= i < |h| ensures Passes(c, t[i]) {
      assert Passes(c, h[i]);
    }
  }

  /** A segment of one step. */
  lemma One(world: World, bytes: seq<byte>, c: ProbeChecks, h: seq<Event>, e: Event, r: Option<Failure>)
    requires Honest(world, bytes, h, e)
    requires r.None? <==> Passes(c, e)
    requires r.Some? ==> Blames(c, e, r.value)
    ensures Ran(world, bytes, c, h, h + [e], [StepOf(e)], r)
  {
    Begin(world, bytes, c, h, [StepOf(e)]);
    Extend(world, bytes, c, h, h, e, [StepOf(e)], 0, r);
  }

  // ----- The program -----

  /** The notification signalled, and the words it carries: a stage's and a detail. */
  datatype Signal = Signal(cptr: nat, word: nat, detail: nat)

  function StageWord(stage: Stage): nat {
    match stage
    case Done => 0
    case Grant => 1
    case Attenuation => 2
    case Deserialize => 3
    case Link => 4
    case Instantiate => 5
    case Lookup => 6
    case Call => 7
    case Verdict => 8
    case Package => 9
    case Manifest => 10
    case Revocation => 11
  }

  function AsFailure<T>(r: Result<T, Failure>): Option<Failure> {
    match r
    case Ok(_) => None
    case Err(f) => Some(f)
  }

  class Launcher {
    const world: World
    const image: seq<byte>  // what the launcher mapped at `PACKAGE_VADDR`
    var trace: seq<Event>
    var signalled: Option<Signal>

    constructor (world: World, image: seq<byte>)
      ensures this.world == world && this.image == image && trace == [] && signalled == None
    {
      this.world, this.image := world, image;
      trace, signalled := [], None;
    }

    function Bytes(len: nat): seq<byte> {
      if len <= |image| then image[..len] else []
    }

    method VerifyPackage(len: nat, ghost c: ProbeChecks) returns (r: Result<Signed, Failure>)
      requires |image| == PACKAGE_MAX_LEN
      modifies this`trace
      ensures Ran(world, Bytes(len), c, old(trace), trace, VERIFYING, AsFailure(r))
      ensures r.Ok? ==> world.decode(Bytes(len)) == Some(r.value) && AnyVerifies(world, r.value) && r.value.cwasm != []
    {
      hide Ran, AnyVerifies;
      Begin(world, Bytes(len), c, trace, VERIFYING);
      ghost var t0 := trace;

      var fits := 0 < len <= PACKAGE_MAX_LEN;
      r := Err(Failure(Package, 1));
      Extend(world, Bytes(len), c, t0, trace, LengthChecked(len), VERIFYING, 0, if fits then None else AsFailure(r));
      trace := trace + [LengthChecked(len)];
      if !fits {
        return;
      }

      var bytes := image[..len];
      var decoded := world.decode(bytes);
      r := Err(Failure(Package, 2));
      Extend(world, bytes, c, t0, trace, Decoded(decoded), VERIFYING, 1, if decoded.Some? then None else AsFailure(r));
      trace := trace + [Decoded(decoded)];
      if decoded.None? {
        return;
      }
      var package := decoded.value;

      var forged := Tamper(package);
      var forgery := VerifiesUnderAny(world, forged);
      r := Err(Failure(Package, 3));
      Extend(world, bytes, c, t0, trace, ForgedVerified(forged, forgery), VERIFYING, 2,
          if !forgery then None else AsFailure(r));
      trace := trace + [ForgedVerified(forged, forgery)];
      if forgery {
        return;
      }

      var verified := VerifiesUnderAny(world, package);
      r := Err(Failure(Package, 4));
      Extend(world, bytes, c, t0, trace, RealVerified(package, verified), VERIFYING, 3,
          if verified then None else AsFailure(r));
      trace := trace + [RealVerified(package, verified)];
      if verified {
        r := Ok(package);
      }
    }

    /** `request_grant`: `Ok(false)` when the binder declines; once it grants, its four refusals must hold. */
    method RequestGrant(asked: H.Interface, ghost bytes: seq<byte>, ghost c: ProbeChecks)
      returns (r: Result<bool, Failure>)
      requires AskedFor(world, bytes) == Some(asked)
      modifies this`trace
      ensures Ran(world, bytes, c, old(trace), trace, Granting(BinderGrants(old(trace), asked)), AsFailure(r))
      ensures r.Ok? ==> r.value == BinderGrants(old(trace), asked)
      ensures BoundFirst(old(trace), trace, asked)
    {
      hide Ran, LaunchManifest, AnyVerifies, Tampered, WiringOf, Accepted, Refused, BlamesMarker;
      ghost var t0, script := trace, Granting(BinderGrants(trace, asked));
      Begin(world, bytes, c, t0, script);

      var bound := world.bind(trace, DEST_CPTR, asked);
      r := Err(Failure(Grant, 1));
      Extend(world, bytes, c, t0, trace, Bound(DEST_CPTR, asked, bound), script, 0,
          if bound.Some? then None else AsFailure(r));
      trace := trace + [Bound(DEST_CPTR, asked, bound)];
      if bound.None? {
        return;
      }
      if !bound.value {
        return Ok(false);
      }
      var refusal := CheckRefusals(asked, bytes, c, t0);
      r := if refusal.None? then Ok(true) else Err(refusal.value);
    }

    /** What the launch binder must refuse: a second bind, and a grant, a listing and a revocation of its own. */
    method CheckRefusals(asked: H.Interface, ghost bytes: seq<byte>, ghost c: ProbeChecks, ghost start: seq<Event>)
      returns (r: Option<Failure>)
      requires AskedFor(world, bytes) == Some(asked)
      requires Ran(world, bytes, c, start, trace, Granting(true)[..1], None)
      modifies this`trace
      ensures old(trace) <= trace && Ran(world, bytes, c, start, trace, Granting(true), r)
    {
      hide Ran, Accepted, Refused, BlamesMarker;
      var rebound := world.bind(trace, PROBE_CPTR, asked);
      r := if rebound == Some(false) then None else Some(Failure(Grant, if rebound.None? then 1 else 2));
      Note(Bound(PROBE_CPTR, asked, rebound), r, bytes, c, start, Granting(true), 1);
      if r.Some? { return; }

      var granted := world.grant(trace);
      r := if granted == Some(K.STATUS_ACCESS) then None else Some(Failure(Grant, 3));
      Note(GrantTried(granted), r, bytes, c, start, Granting(true), 2);
      if r.Some? { return; }

      var listed := world.list(trace);
      r := if listed == Some(None) then None else Some(Failure(Grant, 4));
      Note(Listed(listed), r, bytes, c, start, Granting(true), 3);
      if r.Some? { return; }

      var revoked := world.revoke(trace);
      r := if revoked != Some(K.STATUS_OK) then None else Some(Failure(Grant, 5));
      Note(RevokeTried(revoked), r, bytes, c, start, Granting(true), 4);
    }

    /** Records one answer, and that the step it belongs to passed or not. */
    method Note(e: Event, ghost r: Option<Failure>, ghost bytes: seq<byte>, ghost c: ProbeChecks,
                ghost start: seq<Event>, ghost script: seq<Step>, ghost n: nat)
      requires n < |script| && Ran(world, bytes, c, start, trace, script[..n], None)
      requires StepOf(e) == script[n] && Honest(world, bytes, trace, e)
      requires r.None? <==> Passes(c, e)
      requires r.Some? ==> Blames(c, e, r.value)
      modifies this`trace
      ensures trace == old(trace) + [e]
      ensures r.None? ==> Ran(world, bytes, c, start, trace, script[..n + 1], r)
      ensures r.Some? || n + 1 == |script| ==> Ran(world, bytes, c, start, trace, script, r)
    {
      hide *;
      Extend(world, bytes, c, start, trace, e, script, n, r);
      trace := trace + [e];
    }

    /** The keystore wiring's own check: an encryption under a granted key must be refused with `ACCESS`. */
    method CheckAttenuation(granted: bool, ghost bytes: seq<byte>, ghost c: ProbeChecks) returns (r: Option<Failure>)
      modifies this`trace
      ensures Ran(world, bytes, c, old(trace), trace, Attenuating(ForKeystore, granted), r)
      ensures r.None? <==> !granted || world.encrypt(old(trace)) == Some(K.RemoteDenied(1))
      ensures r.Some? ==> r.value.stage == Attenuation
      ensures r.Some? ==> trace == old(trace) + [EncryptTried(world.encrypt(old(trace)))]
    {
      ghost var script := Attenuating(ForKeystore, granted);
      Begin(world, bytes, c, trace, script);
      hide Ran;
      r := None;
      if granted {
        var refusal := world.encrypt(trace);
        match refusal {
          case Some(RemoteDenied(status)) =>
            r := if status == K.STATUS_ACCESS then None else Some(Failure(Attenuation, status));
          case Some(_) => r := Some(Failure(Attenuation, 0x100));
          case None => r := Some(Failure(Attenuation, 0x200));
        }
        Extend(world, bytes, c, trace, trace, EncryptTried(refusal), script, 0, r);
        trace := trace + [EncryptTried(refusal)];
      }
    }

    /** One fallible call into the engine, and the failure its error is mapped to. */
    method Drive(step: EngineStep, failure: Failure, ghost bytes: seq<byte>, ghost c: ProbeChecks,
                 ghost start: seq<Event>, ghost n: nat)
      returns (r: Option<Failure>)
      requires n < |HOSTING| && HOSTING[n] == Engine(step) && Ran(world, bytes, c, start, trace, HOSTING[..n], None)
      requires Blames(c, EngineDid(step, false), failure)
      modifies this`trace
      ensures trace == old(trace) + [EngineDid(step, r.None?)]
      ensures r.None? ==> Ran(world, bytes, c, start, trace, HOSTING[..n + 1], None)
      ensures r.Some? ==> Ran(world, bytes, c, start, trace, HOSTING, r)
    {
      hide Ran;
      var ok := world.engine(trace, step);
      r := if ok then None else Some(failure);
      Extend(world, bytes, c, start, trace, EngineDid(step, ok), HOSTING, n, r);
      trace := trace + [EngineDid(step, ok)];
    }

    /** The first half of `run_probe`: from the code to the first report. `package` is one that verified. */
    method HostGuest(package: Signed, manifest: H.GrantManifest, hosted: H.GrantManifest, ghost bytes: seq<byte>,
                     c: ProbeChecks)
      returns (r: Option<Failure>)
      requires world.decode(bytes) == Some(package) && AnyVerifies(world, package)
      requires |trace| > |VERIFYING| + |PLANNING|
      requires LaunchManifest(world, bytes, Granted(trace)) == Some(manifest) == Some(hosted)
      modifies this`trace
      ensures Ran(world, bytes, c, old(trace), trace, HOSTING, r)
    {
      hide Ran, Accepted, Refused, BlamesMarker, LaunchManifest, AnyVerifies, WiringOf, Tampered, StatusIn, OrBit8;
      ghost var t0 := trace;
      r := LoadGuest(package, manifest, bytes, c);
      if r.Some? { return; }
      r := Drive(TrapImports, Failure(Link, 1), bytes, c, t0, 2);
      if r.Some? { return; }
      r := Drive(SetFuel, Failure(Instantiate, 0), bytes, c, t0, 3);
      if r.Some? { return; }
      r := StartGuest(hosted, bytes, c, t0);
      if r.Some? { return; }
      r := Drive(LookUpProbe, Failure(Lookup, 0), bytes, c, t0, 5);
      if r.Some? { return; }

      r := FirstReport(bytes, c, t0);
    }

    method LoadGuest(package: Signed, manifest: H.GrantManifest, ghost bytes: seq<byte>, ghost c: ProbeChecks)
      returns (r: Option<Failure>)
      requires world.decode(bytes) == Some(package)
      requires |trace| > |VERIFYING| + |PLANNING|
      requires LaunchManifest(world, bytes, Granted(trace)) == Some(manifest)
      modifies this`trace
      ensures old(trace) <= trace
      ensures r.None? ==> Ran(world, bytes, c, old(trace), trace, HOSTING[..2], None)
      ensures r.Some? ==> Ran(world, bytes, c, old(trace), trace, HOSTING, r)
    {
      hide Ran, LaunchManifest, AnyVerifies, WiringOf, Tampered, StatusIn, OrBit8, Accepted, Refused, BlamesMarker;
      ghost var t0 := trace;
      Begin(world, bytes, c, t0, HOSTING);

      var ok := world.deserialize(trace, package.cwasm);
      r := if ok then None else Some(Failure(Deserialize, 0));
      Extend(world, bytes, c, t0, trace, Deserialized(package.cwasm, ok), HOSTING, 0, r);
      trace := trace + [Deserialized(package.cwasm, ok)];
      if !ok { return; }

      ok := world.link(trace, manifest);
      r := if ok then None else Some(Failure(Link, 0));
      Extend(world, bytes, c, t0, trace, LinkerBuilt(manifest, ok), HOSTING, 1, r);
      trace := trace + [LinkerBuilt(manifest, ok)];
    }

    /** Instantiates against the state built from `hosted`. */
    method StartGuest(hosted: H.GrantManifest, ghost bytes: seq<byte>, ghost c: ProbeChecks, ghost start: seq<Event>)
      returns (r: Option<Failure>)
      requires Ran(world, bytes, c, start, trace, HOSTING[..4], None)
      requires LaunchManifest(world, bytes, Granted(trace)) == Some(hosted)
      modifies this`trace
      ensures r.None? ==> Ran(world, bytes, c, start, trace, HOSTING[..5], None)
      ensures r.Some? ==> Ran(world, bytes, c, start, trace, HOSTING, r)
      ensures exists e :: trace == old(trace) + [e]
    {
      hide Ran, LaunchManifest;
      var ok := world.instantiate(trace, hosted);
      r := if ok then None else Some(Failure(Instantiate, 1));
      Extend(world, bytes, c, start, trace, Instantiated(hosted, ok), HOSTING, 4, r);
      trace := trace + [Instantiated(hosted, ok)];
    }

    method FirstReport(ghost bytes: seq<byte>, c: ProbeChecks, ghost start: seq<Event>) returns (r: Option<Failure>)
      requires Ran(world, bytes, c, start, trace, HOSTING[..6], None)
      modifies this`trace
      ensures Ran(world, bytes, c, start, trace, HOSTING, r)
    {
      hide Ran, Accepted, BlamesMarker;
      var report := world.probe(trace);
      r := Some(Failure(Call, 0));
      if report.Some? {
        r := CheckReport(report.value, c.required);
      }
      Extend(world, bytes, c, start, trace, Probed(false, report), HOSTING, 6, r);
      trace := trace + [Probed(false, report)];
    }

    /** One request chunk to the granted endpoint; the status is the reply label's low sixteen bits. */
    method SendEmptyChunk(op: OpenOp, more: bool) returns (status: Option<nat>)
      modifies this`trace
      ensures var tag := world.send(old(trace), op, more);
              && trace == old(trace) + [ChunkSent(op, more, tag)]
              && status == if tag.None? then None else Some(StatusIn(tag.value))
    {
      var tag := world.send(trace, op, more);
      trace := trace + [ChunkSent(op, more, tag)];
      status := if tag.None? then None else Some(StatusIn(tag.value));
    }

    method RevokeDuringOpenRequest(op: OpenOp, ghost bytes: seq<byte>, ghost c: ProbeChecks)
      returns (r: Option<Failure>)
      requires LeftOpen(world, bytes) == Some(op)
      modifies this`trace
      ensures Ran(world, bytes, c, old(trace), trace, REVOKING, r)
      ensures var sent := world.send(old(trace), op, true);
              var accepted := sent.Some? && sent.value % 0x1_0000 == 0;
              && (!accepted ==> r == Some(Failure(Revocation, 1)))
              && (accepted ==> |trace| > |old(trace)| + 1)
      ensures |trace| == |old(trace)| + 2 || |trace| == |old(trace)| + 3 ==> r == Some(Failure(Revocation, 2))
      ensures |trace| == |old(trace)| + 4 ==>
                && var closed := world.send(trace[..|old(trace)| + 3], op, false);
                && (closed.None? ==> r == Some(Failure(Revocation, 1)))
                && (closed.Some? && closed.value % 0x1_0000 == 1 ==> r == None)
                && (closed.Some? && closed.value % 0x1_0000 != 1 ==>
                      r == Some(Failure(Revocation, OrBit8(closed.value % 0x1_0000))))
    {
      hide Ran, LaunchManifest, AnyVerifies, Tampered, WiringOf, Accepted, Refused, BlamesMarker;
      ghost var t0 := trace;
      Begin(world, bytes, c, t0, REVOKING);

      r := OpenRequest(op, bytes, c, t0);
      if r.Some? { return; }

      r := SignalAndAwait(bytes, c, t0);
      if r.Some? { return; }

      ghost var t3 := trace;
      r := CloseRequest(op, bytes, c, t0);
      assert trace[..|t3|] == t3;
    }

    method OpenRequest(op: OpenOp, ghost bytes: seq<byte>, ghost c: ProbeChecks, ghost start: seq<Event>)
      returns (r: Option<Failure>)
      requires LeftOpen(world, bytes) == Some(op) && Ran(world, bytes, c, start, trace, REVOKING[..0], None)
      modifies this`trace
      ensures |trace| == |old(trace)| + 1
      ensures r.None? ==> Ran(world, bytes, c, start, trace, REVOKING[..1], None)
      ensures r.Some? ==> Ran(world, bytes, c, start, trace, REVOKING, r)
      ensures var sent := world.send(old(trace), op, true);
              r == if sent.Some? && sent.value % 0x1_0000 == 0 then None else Some(Failure(Revocation, 1))
    {
      hide Ran, LeftOpen;
      ghost var h := trace;
      var status := SendEmptyChunk(op, true);
      r := if status == Some(K.STATUS_OK) then None else Some(Failure(Revocation, 1));
      Extend(world, bytes, c, start, h, trace[|h|], REVOKING, 0, r);
    }

    method CloseRequest(op: OpenOp, ghost bytes: seq<byte>, ghost c: ProbeChecks, ghost start: seq<Event>)
      returns (r: Option<Failure>)
      requires LeftOpen(world, bytes) == Some(op) && Ran(world, bytes, c, start, trace, REVOKING[..3], None)
      modifies this`trace
      ensures |trace| == |old(trace)| + 1 && old(trace) <= trace
      ensures Ran(world, bytes, c, start, trace, REVOKING, r)
      ensures var closed := world.send(old(trace), op, false);
              r == if closed.None? then Some(Failure(Revocation, 1))
                   else if closed.value % 0x1_0000 == 1 then None
                   else Some(Failure(Revocation, OrBit8(closed.value % 0x1_0000)))
    {
      hide Ran, LeftOpen, OrBit8;
      ghost var h := trace;
      var status := SendEmptyChunk(op, false);
      r := if status.None? then Some(Failure(Revocation, 1))
           else if status.value == K.STATUS_ACCESS then None
           else Some(Failure(Revocation, OrBit8(status.value)));
      Extend(world, bytes, c, start, h, trace[|h|], REVOKING, 3, r);
    }

    /** The request to revoke, and the word that it is done. */
    method SignalAndAwait(ghost bytes: seq<byte>, ghost c: ProbeChecks, ghost start: seq<Event>)
      returns (r: Option<Failure>)
      requires Ran(world, bytes, c, start, trace, REVOKING[..1], None)
      modifies this`trace
      ensures r.None? ==> Ran(world, bytes, c, start, trace, REVOKING[..3], None) && |trace| == |old(trace)| + 2
      ensures r.Some? ==> Ran(world, bytes, c, start, trace, REVOKING, r)
      ensures r.Some? ==> r == Some(Failure(Revocation, 2)) && |old(trace)| < |trace| <= |old(trace)| + 2
    {
      hide Ran, Accepted, Refused, BlamesMarker;
      var ok := world.signal(trace);
      r := if ok then None else Some(Failure(Revocation, 2));
      Note(RevokeSignalled(ok), r, bytes, c, start, REVOKING, 1);
      if r.Some? { return; }

      ok := world.wait(trace);
      r := if ok then None else Some(Failure(Revocation, 2));
      Note(RevokeAwaited(ok), r, bytes, c, start, REVOKING, 2);
    }

    method RunProbe(package: Signed, manifest: H.GrantManifest, hosted: H.GrantManifest, ghost bytes: seq<byte>,
                    c: ProbeChecks)
      returns (r: Option<Failure>)
      requires world.decode(bytes) == Some(package) && AnyVerifies(world, package)
      requires |trace| > |VERIFYING| + |PLANNING|
      requires LaunchManifest(world, bytes, Granted(trace)) == Some(manifest) == Some(hosted)
      requires LeftOpen(world, bytes) == Some(c.openOp)
      modifies this`trace
      ensures Ran(world, bytes, c, old(trace), trace, HOSTING + (REVOKING + [SecondProbe]), r)
    {
      hide Ran, LaunchManifest, AnyVerifies, Refused;
      ghost var t0 := trace;
      r := HostGuest(package, manifest, hosted, bytes, c);
      ghost var t1 := trace;
      if r.Some? {
        Stops(world, bytes, c, t0, t1, HOSTING, REVOKING + [SecondProbe], r.value);
        return;
      }
      r := RevokeDuringOpenRequest(c.openOp, bytes, c);
      ghost var t2 := trace;
      if r.Some? {
        Stops(world, bytes, c, t1, t2, REVOKING, [SecondProbe], r.value);
        Then(world, bytes, c, t0, t1, t2, HOSTING, REVOKING + [SecondProbe], r);
        return;
      }
      var report := world.probe(trace);
      r := if report.None? then Some(Failure(Call, 1))
           else if Refused(c.refused, report.value) then None
           else Some(Failure(Revocation, 3));
      One(world, bytes, c, trace, Probed(true, report), r);
      trace := trace + [Probed(true, report)];
      Then(world, bytes, c, t1, t2, trace, REVOKING, [SecondProbe], r);
      Then(world, bytes, c, t0, t1, trace, HOSTING, REVOKING + [SecondProbe], r);
    }

    method HostKeystore(package: Signed, declared: nat, ghost bytes: seq<byte>) returns (r: Option<Failure>)
      requires world.decode(bytes) == Some(package) && AnyVerifies(world, package)
      requires |trace| == |VERIFYING| + |PLANNING|
      requires PlannedWiring(world, bytes) == Some(ForKeystore)
      requires var g := BinderGrants(trace, H.Keystore);
               LaunchManifest(world, bytes, g) == Some(KeyManifest(declared, g))
      modifies this`trace
      ensures Ran(world, bytes, ChecksOf(ForKeystore), old(trace), trace,
                  Serving(ForKeystore, BinderGrants(old(trace), H.Keystore)), r)
      ensures BoundFirst(old(trace), trace, H.Keystore)
    {
      hide Ran, AnyVerifies, LaunchManifest, ChecksOf;
      ghost var t0, g := trace, BinderGrants(trace, H.Keystore);
      ghost var rest := HOSTING + (REVOKING + [SecondProbe]);
      var c := ChecksOf(ForKeystore);
      var request := RequestGrant(H.Keystore, bytes, c);
      ghost var t1 := trace;
      if request.Err? {
        r := Some(request.error);
        Stops(world, bytes, c, t0, t1, Granting(g), Attenuating(ForKeystore, g) + rest, request.error);
        return;
      }
      var granted := request.value;
      r := CheckAttenuation(granted, bytes, c);
      ghost var t2 := trace;
      RanGrows(world, bytes, c, t1, t2, Attenuating(ForKeystore, g), r);
      if r.Some? {
        Stops(world, bytes, c, t1, t2, Attenuating(ForKeystore, g), rest, r.value);
      } else {
        r := RunProbe(package, KeyManifest(declared, granted), KeyManifest(declared, granted), bytes, c);
        RanGrows(world, bytes, c, t2, trace, rest, r);
        Then(world, bytes, c, t1, t2, trace, Attenuating(ForKeystore, g), rest, r);
      }
      Then(world, bytes, c, t0, t1, trace, Granting(g), Attenuating(ForKeystore, g) + rest, r);
    }

    method HostFilesystem(package: Signed, declared: nat, ghost bytes: seq<byte>) returns (r: Option<Failure>)
      requires world.decode(bytes) == Some(package) && AnyVerifies(world, package)
      requires |trace| == |VERIFYING| + |PLANNING|
      requires PlannedWiring(world, bytes) == Some(ForFilesystem)
      requires var g := BinderGrants(trace, H.Filesystem);
               LaunchManifest(world, bytes, g) == Some(FileManifest(declared, g))
      modifies this`trace
      ensures Ran(world, bytes, ChecksOf(ForFilesystem), old(trace), trace,
                  Serving(ForFilesystem, BinderGrants(old(trace), H.Filesystem)), r)
      ensures BoundFirst(old(trace), trace, H.Filesystem)
    {
      hide Ran, AnyVerifies, LaunchManifest, ChecksOf;
      ghost var t0, g := trace, BinderGrants(trace, H.Filesystem);
      ghost var rest := HOSTING + (REVOKING + [SecondProbe]);
      assert Attenuating(ForFilesystem, g) + rest == rest;
      var c := ChecksOf(ForFilesystem);
      var request := RequestGrant(H.Filesystem, bytes, c);
      ghost var t1 := trace;
      if request.Err? {
        r := Some(request.error);
        Stops(world, bytes, c, t0, t1, Granting(g), rest, request.error);
        return;
      }
      var granted := request.value;
      r := RunProbe(package, FileManifest(declared, granted), FileManifest(declared, granted), bytes, c);
      RanGrows(world, bytes, c, t1, trace, rest, r);
      Then(world, bytes, c, t0, t1, trace, Granting(g), rest, r);
    }

    /** The launch binder's answer to the one request this process makes. */
    ghost predicate BinderGrants(h: seq<Event>, asked: H.Interface) {
      world.bind(h, DEST_CPTR, asked) == Some(true)
    }

    ghost predicate BoundFirst(before: seq<Event>, after: seq<Event>, asked: H.Interface) {
      |before| < |after| && after[|before|] == Bound(DEST_CPTR, asked, world.bind(before, DEST_CPTR, asked))
    }

    method HostTheGuest(len: nat) returns (r: Option<Failure>)
      requires |image| == PACKAGE_MAX_LEN && trace == []
      modifies this`trace
      ensures FollowsScript(world, Bytes(len), trace, r)
    {
      hide Ran, AnyVerifies, PlannedWiring, ChecksOf, Serving;
      ghost var bytes := Bytes(len);
      ghost var wiring := PlannedWiring(world, bytes);
      ghost var c := ChecksFor(wiring);
      var checked := VerifyPackage(len, c);
      ghost var t1 := trace;
      RanGrows(world, bytes, c, [], t1, VERIFYING, AsFailure(checked));
      if checked.Err? {
        Stops(world, bytes, c, [], t1, VERIFYING, PLANNING + Rest(wiring, false), checked.error);
        return Some(checked.error);
      }
      var package := checked.value;
      var planned := Plan(package, bytes, c);
      ghost var t2 := trace;
      RanGrows(world, bytes, c, t1, t2, PLANNING, AsFailure(planned));
      if planned.Err? {
        Stops(world, bytes, c, t1, t2, PLANNING, Rest(wiring, false), planned.error);
        Then(world, bytes, c, [], t1, t2, VERIFYING, PLANNING + Rest(wiring, false), AsFailure(planned));
        return Some(planned.error);
      }
      var plan := planned.value;
      if plan.files == 0 {
        r := HostKeystore(package, plan.keys, bytes);
      } else {
        r := HostFilesystem(package, plan.files, bytes);
      }
      ghost var g := Granted(trace);
      RanGrows(world, bytes, c, t2, trace, Serving(wiring.value, g), r);
      Then(world, bytes, c, t1, t2, trace, PLANNING, Serving(wiring.value, g), r);
      Then(world, bytes, c, [], t1, trace, VERIFYING, PLANNING + Serving(wiring.value, g), r);
    }

    /** `plan` and the match on it: what this process cannot wire is refused before anything is bound. */
    method Plan(package: Signed, ghost bytes: seq<byte>, ghost c: ProbeChecks) returns (r: Result<GrantPlan, Failure>)
      requires world.decode(bytes) == Some(package) && AnyVerifies(world, package)
      modifies this`trace
      ensures Ran(world, bytes, c, old(trace), trace, PLANNING, AsFailure(r))
      ensures r.Ok? ==> PlannedWiring(world, bytes) == Some(if r.value.files == 0 then ForKeystore else ForFilesystem)
      ensures r.Ok? ==> PlanOf(world, bytes) == Some(r.value)
    {
      hide Ran;
      ghost var t0 := trace;
      Begin(world, bytes, c, t0, PLANNING);
      var plan := world.parse(package.manifest);
      r := Err(Failure(Manifest, 1));
      Extend(world, bytes, c, t0, trace, Parsed(package.manifest, plan), PLANNING, 0,
          if plan.Some? then None else AsFailure(r));
      trace := trace + [Parsed(package.manifest, plan)];
      if plan.None? {
        return;
      }
      r := if plan.value.clock then Err(Failure(Manifest, 4))
           else if plan.value.keys == 0 && plan.value.files == 0 then Err(Failure(Manifest, 2))
           else if plan.value.keys > 0 && plan.value.files > 0 then Err(Failure(Manifest, 3))
           else Ok(plan.value);
      Extend(world, bytes, c, t0, trace, PlanChecked(plan.value), PLANNING, 1, AsFailure(r));
      trace := trace + [PlanChecked(plan.value)];
    }

    /** The whole program: host the guest and signal the outcome, exactly once. */
    method RunAndReport(len: nat, heapUsed: nat) returns (r: Option<Failure>)
      requires |image| == PACKAGE_MAX_LEN && trace == [] && signalled == None
      modifies this
      ensures FollowsScript(world, Bytes(len), trace, r)
      ensures signalled == Some(match r
                                case None => Signal(3, 0, heapUsed)
                                case Some(f) => Signal(4, StageWord(f.stage), f.detail))
    {
      hide FollowsScript;
      r := HostTheGuest(len);
      signalled := Some(match r
                        case None => Signal(SUCCESS_CPTR, StageWord(Done), heapUsed)
                        case Some(f) => Signal(FAILURE_CPTR, StageWord(f.stage), f.detail));
    }
  }

  function Rest(w: Option<Wiring>, granted: bool): seq<Step> {
    if w.None? then [] else Serving(w.value, granted)
  }

  function ChecksFor(w: Option<Wiring>): ProbeChecks {
    if w.None? then ChecksOf(ForKeystore) else ChecksOf(w.value)
  }

  /** A whole run, from nothing: its package's own checklist up to the first step that does not pass. */
  ghost predicate FollowsScript(world: World, bytes: seq<byte>, t: seq<Event>, r: Option<Failure>) {
    var w := PlannedWiring(world, bytes);
    Ran(world, bytes, ChecksFor(w), [], t, VERIFYING + (PLANNING + Rest(w, Granted(t))), r)
  }

  lemma RanGrows(world: World, bytes: seq<byte>, c: ProbeChecks, before: seq<Event>, after: seq<Event>,
                 script: seq<Step>, r: Option<Failure>)
    requires Ran(world, bytes, c, before, after, script, r)
    ensures before <= after && |after| <= |before| + |script|
    ensures r.None? ==> |after| == |before| + |script|
  {
  }

  /** `check_report`: the prefix, then the markers in order. */
  method CheckReport(report: string, required: seq<string>) returns (r: Option<Failure>)
    ensures r.None? <==> Accepted(required, report)
    ensures r.Some? ==> r.value.stage == Verdict && BlamesMarker(required, report, r.value.detail)
  {
    if !("ok: " <= report) {
      return Some(Failure(Verdict, 0));
    }
    var i := 0;
    while i < |required|
      invariant i <= |required| && forall j :: 0 <= j < i ==> Contains(report, required[j])
    {
      if !Contains(report, required[i]) {
        return Some(Failure(Verdict, i + 1));
      }
      i := i + 1;
    }
    r := None;
  }

  /** The `any` over the trusted publishers. */
  method VerifiesUnderAny(world: World, package: Signed) returns (ok: bool)
    ensures ok == AnyVerifies(world, package)
  {
    var i := 0;
    while i < |world.trusted|
      invariant i <= |world.trusted|
      invariant forall j :: 0 <= j < i ==> !world.verify(package, world.trusted[j])
    {
      if world.verify(package, world.trusted[i]) {
        return true;
      }
      i := i + 1;
    }
    ok := false;
  }

  /** Flips one bit of a local copy of the code. */
  method Tamper(package: Signed) returns (forged: Signed)
    ensures forged == Tampered(package)
  {
    var n := |package.cwasm|;
    var copy := new byte[n](i requires 0 <= i < n => package.cwasm[i]);
    assert copy[..] == package.cwasm;
    if n > 0 {
      copy[n - 1] := if copy[n - 1] % 2 == 0 then copy[n - 1] + 1 else copy[n - 1] - 1;
    }
    forged := package.(cwasm := copy[..]);
  }
}
