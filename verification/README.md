# A verified model of the Lantern confined runtime

`lantern-runtime` hosts an untrusted Wasm guest inside a confined program. The guest reaches the
outside only through handles a manifest granted, the handles reach services in other confined
programs over IPC, and a grant can be revoked while a request is open. This project models the parts
of that runtime that keep state, loop or run a protocol, and proves what they promise over every
input, every run and every interleaving.

The modules follow the repository's own components.

- **Frame-backed arena** (`src/platform.rs`). `FramePool` is the arena as a map from a claimed start
  region to a region count, one `Step` per platform call; `FramePoolRuns` proves what holds over
  whole runs, and `FrameHistory` tells every kernel call, address and byte from the history of platform
  calls alone, in literal slot numbers and addresses; `FrameArena` is the code itself, a class over the two slot arrays, the bump index and a
  kernel page table, whose every method refines `FramePool.Step`. The pool size is any number, and so
  is the set of frames the loader really granted; the `expect` on mapping is a `Panic` outcome.
- **Lock-free page arena** (`riscv64-probe/src/platform.rs`). `PageRounding` gives the mask arithmetic
  bit by bit; `PageArena` is any number of callers interleaving their load, compare-exchange and
  retry steps, with spurious failures, and the retry loop as one caller runs it.
- **Handles to capabilities** (`src/host.rs`). `ResourceTable` is the shared typed table as a slab with
  a free list; `Host` is one step per guest call; `RuntimeState` is the object that takes those steps
  in place, revocations at its services among them. `HandleHistory` and `CallHistory` tell what every handle
  names and every reply a guest gets from the manifest, the records at the start and the calls so far,
  without looking at the host's state (`FileAnswers` is the one-call half for files); `HostRuns` proves what holds of every call sequence,
  `HostTwins` that a confined host and an in-process one cannot be told apart, and `HostSecrecy` that a guest
  learns of nothing its slots are not served under.
- **Services, in process and over IPC** (`src/host.rs`). `Wire` holds the encodings, `Keystore` and
  `Store` the in-process and the confined service, `IpcKeystore` and `IpcFilesystem` the runtime's side.
- **Launch and revocation** (`confined-runtime`). `Launch` is the program, method by method, with a
  trace of what it did; `LaunchRuns` what every trace satisfies; `LaunchReference` tells the program again as
  one table of positions, literal codes and literal markers, and proves every run the table's; `Revocation` the exchange of runtime,
  service and `grant-control` as a transition system, `RevocationServices` the two confined services in
  it, and `LaunchRevocation` the link between the program and that system.
- **The filesystem guest** (`confined-fs-guest`). `GuestReports` is its reports as text, `FsGuest` the guest
  run against `RuntimeState`, `FsGuestRuns` what its reports mean before and after a revocation, and
  `FsLaunch` one launch from end to end: program, guest, store, service and `grant-control`.

Three findings where the code and its comments or its contract part ways; the model follows the code.

- `src/platform.rs:78-79` says a frame slot the loader left empty "just fails" that
  `wasmtime_mmap_new`. The code panics (`src/platform.rs:133-134`). `PanicReachableIffUndergranted`
  gives the exact condition: the loader grants fewer frames than `REGIONS`. That is the shipped
  setting, four regions and three frames, and the fourth frame's slot, 10, holds a notification
  (`confined-runtime/src/lib.rs:69-73`).
- `IpcKeystore` and `IpcFilesystem` ignore the badge and object they are handed: a channel has one badge,
  and its service looks the object up. `IpcKeystore.AgreementIff`, `Store.ReadAgreementIff` and
  `Store.WriteAgreementIff` say exactly when a handle still gets the answers its own badge and object
  would get in process; `HostRuns.ManifestBoundsTheChannelIff` says exactly when the manifest's slots
  still bound what the service is made to serve; and `HostTwins.ConfinedServicesAreIndistinguishable`
  says, for every manifest, which in-process host a confined one is.
- The channel client checks the length of what `encrypt` and `decrypt` get back and answers `invalid` for any
  other; `sign` checks nothing (`src/host.rs:305-315`), although a signature is always `SIGNATURE_LEN` bytes.
  A service that answers success and no bytes hands the guest an empty signature
  (`IpcKeystore.EmptySignatureGetsThrough`); `IpcKeystore.SignatureIsWhateverCame` says exactly which replies
  a guest takes for a signature.

## Assumptions

Everything outside the repository is a parameter or one of these contracts.

- Kernel (`FrameArena.Kernel`): mapping succeeds exactly for a frame the loader supplied that is mapped
  nowhere, at an address with nothing mapped; frames start zeroed and keep their contents while
  unmapped. A call on an empty capability slot fails (`LaunchRuns.EmptySlotRefusesCalls`).
- Cryptography (`Keystore.Lawful`, `Store.Lawful`): fixed lengths, and opening what was sealed gives
  it back. A package signature check is any predicate, over any list of trusted publishers.
- `lantern_crypto` and `lantern_filesystem` are not part of this model: the order of the services' own
  access checks, the numbers of the wire statuses (0, 1, 2), and little-endian four-byte length
  prefixes are assumed. Field order and exact lengths come from the buffer sizes in `src/host.rs`.
  `store-service` answers a read of an unwritten file with success and no bytes. Its own key grant may be
  refused, with any status; what the runtime makes of that status is its own code's (`Store.RefusalCode`).
- `lantern_abi::frame::Channel` is not part of this model: one call is one request and one answer, and
  an answer longer than the caller's buffer is an error.
- Wasmtime's resource table is not part of this model: an index in use is never handed out again
  before it is dropped, and dropping a handle of the wrong kind is refused and changes nothing.
- Service and `grant-control` (`THREAT_MODEL.md:22`, R8): `Revocation` takes any service, and each theorem
  says which of the two promises it needs. `RevocationServices` derives the refusal from the services'
  own records; serving `REVOKE` while awaiting a chunk stays a promise.
- A guest is any sequence of host calls. `FsGuest` takes the text of an error code as a parameter; its
  theorems need only that the text for `access` contains `"access"` in quotes and the text for `invalid` does not.

## Model

| member | source | states |
|---|---|---|
| FramePool.RegionsFor | src/platform.rs:122 | the fewest 2 MiB regions, at least one, that hold the size |
| FramePool.AddressRoundTrip | src/platform.rs:113-115 | a region's address leads back to the region and offset |
| FramePool.StepKeepsWellFormed | src/platform.rs:121-162 | live grants stay disjoint intervals below the bump index, backed by granted frames; nothing at or above the index was written |
| FrameArena.Arena.constructor | src/platform.rs:99-105 | empty slot arrays stand for the fresh pool |
| FrameArena.Arena.Alloc | src/platform.rs:121-143 | result, state and kernel calls are the abstract pool's: refusal only when the bump check fails, a panic exactly at a missing frame, never frames mapped with no slot found |
| FrameArena.Arena.Record | src/platform.rs:138-142 | the slot search run after mapping always finds a slot, and records the grant there |
| FrameArena.FreeSlotExists | src/platform.rs:125-139 | live slots never outnumber claimed regions, so an unclaimed region means a free slot |
| FrameArena.MapRegions | src/platform.rs:131-135 | the loop maps consecutive frames at their own addresses, stopping at the first missing one |
| FrameArena.Arena.Dealloc | src/platform.rs:149-162 | exactly the grant based at the address is unmapped and forgotten; any other address changes nothing |
| FrameArena.UnmapRegions | src/platform.rs:156-159 | the loop removes exactly the grant's mappings, in order |
| FrameArena.Arena.Store | src/platform.rs:121-143 | a byte store lands in the pool's memory on live addresses and faults elsewhere |
| FrameArena.LoadIsRead | src/platform.rs:121-162 | a load through the page table reads the pool's byte on live memory and faults everywhere else |
| FrameArena.Arena.Remap | src/platform.rs:181-188 | zeroing in place inside a live grant leaves that range blank and every other byte as it was |
| FramePoolRuns.RunKeepsInv | src/platform.rs:99-162 | the run invariant: grants tile the pool, kernel calls happen once, live grants are past grants |
| FramePoolRuns.BumpIndexIsTotalGranted | src/platform.rs:121-128 | the bump index is the sum of every count granted, and at most `regions` mappings ever succeed |
| FramePoolRuns.AddressesAreNeverReused | src/platform.rs:101-105 | two grants of one run never overlap, whatever was released between them |
| FramePoolRuns.FramesMapAndUnmapOnce | src/platform.rs:131-159 | the k-th mapping is of frame k at its own address; no frame is unmapped twice |
| FramePoolRuns.LiveIffHeld | src/platform.rs:121-162 | a base is live exactly when the run mapped it and has not unmapped it since |
| FramePoolRuns.StrayUnmapIsNoOp | src/platform.rs:145-162 | unmapping does nothing exactly for an address never handed out or already taken back |
| FramePoolRuns.NewMappingsAreBlank | src/platform.rs:121-143 | every byte of a new mapping reads zero, over the whole size asked for |
| FramePoolRuns.PanicsIffPastTheGrant | src/platform.rs:125-134 | with the first frames granted, the next mapping of any run panics exactly when it fits the pool but not the loader's grant |
| FramePoolRuns.NoPanicWithinTheGrant | src/platform.rs:131-135 | no run panics when the loader grants at least as many frames as regions |
| FramePoolRuns.PanicReachableIffUndergranted | src/platform.rs:76-85 | some run panics exactly when fewer frames than regions are granted |
| FrameHistory.MappingIsSlotSevenPlus | src/platform.rs:86-134 | over every run the k-th mapping is of capability 7 + k at 0x8820_0000 + k * 0x20_0000 |
| FrameHistory.UnmapGivesBack | src/platform.rs:149-162 | unmapping a mapping still held unmaps, in order, the very capabilities that mapping mapped: as many as its size called for, from 7 + (ptr - 0x8820_0000) / 0x20_0000 on |
| FrameHistory.StoreLandsIffHeld | src/platform.rs:121-162 | a store faults exactly outside the mappings the run still holds, each as large as its size in whole 2 MiB |
| FrameHistory.RemapActsIffHeld | src/platform.rs:172-188 | a remap is within its caller's contract exactly inside one mapping the run still holds |
| FrameHistory.ReadIsLastStored | src/platform.rs:121-188 | over every run each byte is the one last stored there, zero before any store and after a remap |
| FrameHistory.NextMapping | src/platform.rs:121-143 | the next mapping of any run is refused past the pool, panics past the loader's grant, and is else based right after everything ever mapped |
| PageRounding.ClearLowBits | riscv64-probe/src/platform.rs:186 | masking with the complement of a low mask subtracts the remainder, bit by bit |
| PageRounding.MaskRoundIsLeastPageMultiple | riscv64-probe/src/platform.rs:186 | the mask form is the least page multiple holding the size, and zero once the sum wraps |
| PageRounding.MaskRoundCoversIff | riscv64-probe/src/platform.rs:186 | the rounded size holds the request exactly up to the word maximum less 4095 |
| PageArena.Linearizable | riscv64-probe/src/platform.rs:185-195 | under any interleaving, with relaxed loads that may report old values, the completed calls are a run of the sequential bump allocator, in an order that respects real time |
| PageArena.CounterIsTotalGranted | riscv64-probe/src/platform.rs:187-191 | the counter is the sum of the granted rounded sizes, within the arena |
| PageArena.RangesAreDisjoint | riscv64-probe/src/platform.rs:185-195 | granted ranges are page-aligned, inside the arena and disjoint |
| PageArena.RefusalIsFinal | riscv64-probe/src/platform.rs:187-192 | a caller gives up, on whatever value a relaxed load showed it, only when its size does not fit then or at any later moment |
| PageArena.LossesAreBounded | riscv64-probe/src/platform.rs:188-194 | one call loses the exchange to others at most once per arena page |
| PageArena.GrantCoversIff | riscv64-probe/src/platform.rs:185-194 | a granted range holds its request exactly when rounding did not wrap; a request that wrapped is never refused and is granted nothing |
| PageArena.EachResultIsExact | riscv64-probe/src/platform.rs:185-195 | each completed call got the sum of the sizes granted before it exactly when its own rounded size still fit above that, and refusal otherwise |
| PageArena.Arena.Alloc | riscv64-probe/src/platform.rs:185-195 | the retry loop's steps among its rivals' are a run of that system, and it returns what its log entry says |
| ResourceTable.Table.Push | src/host.rs:622 | an index not in use gets the value; refusal exactly when every index is in use |
| ResourceTable.Table.Get | src/host.rs:545 | the value at an index in use, else nothing |
| ResourceTable.Table.Delete | src/host.rs:614 | the index is freed and its value handed back; an index not in use is an error |
| RuntimeState.RuntimeState.constructor | src/host.rs:516-540 | the state stands for a fresh host of its manifest and services |
| RuntimeState.RuntimeState.OpenKey | src/host.rs:620-623 | the abstract host's step; a handle exactly for a filled slot while the table has room |
| RuntimeState.RuntimeState.OpenFile | src/host.rs:678-681 | the same for files |
| RuntimeState.RuntimeState.DropKey | src/host.rs:613-616 | the abstract host's step: a live key handle goes, anything else is refused |
| RuntimeState.RuntimeState.DropFile | src/host.rs:671-674 | the same for files |
| RuntimeState.RuntimeState.Encrypt | src/host.rs:558-576 | in-place encryption through either keystore answers as the abstract host does |
| RuntimeState.RuntimeState.Decrypt | src/host.rs:578-597 | the same for decryption |
| RuntimeState.RuntimeState.Sign | src/host.rs:599-611 | the same for signing |
| RuntimeState.RuntimeState.ReadFile | src/host.rs:627-646 | reading through either filesystem, an unwritten file empty, answers as the abstract host does |
| RuntimeState.RuntimeState.WriteFile | src/host.rs:648-669 | writing through either filesystem, the size check first, answers as the abstract host does |
| RuntimeState.RuntimeState.RevokeKey | THREAT_MODEL.md:22 | a revocation at the attached keystore, in process or at the channel's far side, is the abstract host's step |
| RuntimeState.RuntimeState.RevokeFile | THREAT_MODEL.md:22 | the same at the attached filesystem |
| HostRuns.AuthorityIsConfined | src/host.rs:542-682 | over every call sequence, each call a service takes up is under the badge and object some filled slot of its own vector is really served under |
| HostRuns.ServedIsLogged | src/host.rs:542-682 | the pairs served that the confinement results speak of are all there are: each call taken up is logged once, and nothing else is |
| HandleHistory.HandleNamesItsKey | src/host.rs:613-623 | at any point of any run a handle names a key exactly when an open of that key's own slot yielded it and it was not dropped since |
| HandleHistory.HandleNamesItsFile | src/host.rs:671-681 | the same for files |
| HandleHistory.OpensAndDropsFromHistory | src/host.rs:613-681 | an open yields the number picked exactly for a filled slot and a number no live handle has; a drop succeeds exactly on a live handle of its kind |
| HandleHistory.DroppedKeyIsDead | src/host.rs:542-616 | after a drop, until an open hands the number out again, every call through it reads `access`, nobody serves it and a second drop is refused |
| HandleHistory.DroppedFileIsDead | src/host.rs:553-674 | the same for files |
| CallHistory.KeyRepliesFromHistory | src/host.rs:557-611 | every key call of every run, on either backend, is answered as its handle's slot, the records at the start and the revocations since say: the primitive under that key's secret, `access` or `invalid` |
| CallHistory.FileRepliesFromHistory | src/host.rs:626-669 | every read and write of every run is answered as its handle's slot, the records at the start, the writes that had to be accepted and the revocations since say |
| HostRuns.LocalServicesServeSlots | src/host.rs:161-188 | a service in process is made to serve only what a slot of the manifest names |
| HostRuns.ConfinedServicesServeTheChannel | src/host.rs:225-235 | a confined service is made to serve only its channel's badge and that badge's own object |
| HostRuns.ManifestBoundsTheChannelIff | src/host.rs:225-235 | the slots bound what a confined service serves exactly when the channel's own pair is one of them, or none can be used |
| HostRuns.UnnamedFilesKeepTheirContent | src/host.rs:626-669 | a file no filled slot is really served under keeps its content over every run |
| HostSecrecy.NothingElseIsLearned | src/host.rs:542-682 | two hosts of one manifest, whose services agree on the grants and objects its slots are really served under and on nothing else, give the same reply to every call of every run, for keys and for files |
| HostTwins.ConfinedServicesAreIndistinguishable | src/host.rs:250-682 | for every manifest and every sequence of calls, drops and revocations, a host over its channels answers as the in-process host whose slots name what the channels serve, and its services do the same work |
| HostTwins.BoundSlotsKeepTheManifest | src/host.rs:225-235 | that in-process host has the same manifest exactly when every filled slot names its channel's own badge and object |
| HostRuns.ReadsReturnLastAcceptedWrite | src/host.rs:626-669 | a successful read returns the last write to that file the guest saw accepted, within a block, through any aliased handles |
| HostRuns.StepFiles | src/host.rs:648-669 | one step changes at most the file an accepted write was for |
| HostRuns.OversizedWriteLeavesNoTrace | src/host.rs:657-661 | a write past the block bound is refused, and every later state of the run is the same without it |
| HostRuns.RevokedKeyIsFinal | src/host.rs:557-611 | after a revocation every later well-formed call under that badge ends `access` |
| HostRuns.RevokedFileIsFinal | src/host.rs:626-669 | the same for reads and for writes that fit a block |
| HostRuns.SealedDataOpens | src/host.rs:558-597 | what was encrypted through one handle decrypts through any later handle on the same capability that may decrypt, whatever else is called, dropped or revoked in between |
| HostRuns.LinkedClockAlwaysAnswers | src/host.rs:684-718 | with state and linker built from one manifest, no importable clock call meets a missing source |
| HostRuns.ClockReplies | src/host.rs:684-696 | at any point of any run `now` and `resolution` read the manifest's own clock, each its own value |
| HostRuns.LinkedIffDeclared | src/host.rs:703-729 | a resource is linked exactly when the manifest declares a slot of it, filled or not, and the clock exactly when granted, in every combination |
| Wire.PrefixRoundTrip | src/host.rs:259-260 | a length survives its four-byte prefix |
| Wire.EncryptWireExact | src/host.rs:259-261 | bytes decode to an encrypt request exactly when they are its encoding |
| Wire.DecryptWireExact | src/host.rs:287-289 | the same for decrypt requests |
| Wire.WireIsInjective | src/host.rs:259-289 | different requests have different bytes |
| Wire.EncryptReplyExact | src/host.rs:262-270 | a reply decodes to a tag and ciphertext exactly when it is their encoding |
| Wire.EncryptLayout | src/host.rs:259-261 | nonce, aad and plaintext lie in that order, the first two behind their lengths |
| Wire.DecryptLayout | src/host.rs:287-289 | nonce, aad, tag and ciphertext lie in that order, the first three behind their lengths |
| Wire.PrefixIsLittleEndian | src/host.rs:259-289 | a prefix is the length's four bytes, lowest first |
| Wire.EncodeEncrypt | src/host.rs:260-261 | the buffer's front is the encoding, or nothing is written, exactly when a length or the buffer is too small |
| Wire.EncodeDecrypt | src/host.rs:288-289 | the same for decrypt requests |
| Keystore.CollapseCommutes | src/host.rs:327-336 | a denial reads `access`, and only a denial, whichever side of the wire decided it |
| IpcKeystore.ExpectUnreachableIff | src/host.rs:259-289 | the request fills its buffer exactly, so the encoder's `expect` fires only for an aad too long for its prefix |
| IpcKeystore.RequestRoundTrip | src/host.rs:259-310 | the service decodes exactly the call that was made |
| IpcKeystore.ReplyRoundTrip | src/host.rs:262-315 | the runtime reads exactly the reply the service sent, within its reply buffer |
| IpcKeystore.RemoteRefinesLocal | src/host.rs:161-336 | one call over the channel and one in process look the same to the guest |
| IpcKeystore.AgreementIff | src/host.rs:225-316 | for any channel badge and any handle, calls of one kind agree with the in-process keystore exactly when the records permit both alike and the secrets used cannot be told apart |
| IpcKeystore.SameBadgeAgreementIff | src/host.rs:225-235 | a handle with the channel's badge agrees exactly when it names that badge's key or the badge may not do the operation |
| IpcKeystore.BadRepliesReadInvalid | src/host.rs:264-315 | whatever the call, a transport failure reads `invalid`; a successful payload of the wrong length does so exactly when the call is not a `sign` or the payload is longer than a signature |
| IpcKeystore.AccessIffDenied | src/host.rs:318-336 | whatever answers the channel, a guest reads `access` exactly for a reply that fits with status 1, and `invalid` for any other status but success |
| IpcKeystore.SignatureIsWhateverCame | src/host.rs:305-315 | the guest gets a signature exactly when the answer is a success no longer than one, and gets exactly that payload |
| IpcKeystore.EmptySignatureGetsThrough | src/host.rs:305-315 | an answer that makes the guest take no bytes for a signature, which no in-process keystore gives |
| IpcKeystore.IpcKeystore.Encrypt | src/host.rs:251-276 | the buffer becomes the ciphertext on success and keeps its bytes on every error |
| IpcKeystore.IpcKeystore.Decrypt | src/host.rs:278-303 | the buffer becomes the plaintext on success and keeps its bytes on every error |
| IpcKeystore.IpcKeystore.Sign | src/host.rs:305-315 | the reply's bytes, or the remote refusal |
| Store.ReadIsContent | src/host.rs:636-645 | a guest read is the file's content exactly when the badge allows it and the store's own key grant is good or the file unwritten; else it is refused, with `access` or as that key grant is |
| Store.WriteIsContent | src/host.rs:387-390 | a write is accepted exactly when the badge allows it, it fits and the store's own key grant is good; then it is the file's whole content; a refused one changes nothing, and no other file changes |
| Store.AnswersReadAs | src/host.rs:418-452 | whatever answers the channel, a read is the payload for success, `access` for status 1 and `invalid` for everything else, and a write likewise with no payload |
| Store.RemoteRefinesLocal | src/host.rs:381-452 | reads and writes over the channel and in process look the same to the guest and leave the same store |
| Store.ReadAgreementIff | src/host.rs:418-425 | for any channel badge and any handle, a read agrees with the in-process store exactly when both or neither are refused, and what the store can give is the same |
| Store.WriteAgreementIff | src/host.rs:427-434 | writes agree exactly when both or neither may write, and leave the same store exactly when besides the file is the same or the store's own key grant is refused |
| IpcFilesystem.InProcessFilesystem.Read | src/host.rs:382-385 | the store's answer, its bytes at the front of the buffer |
| IpcFilesystem.InProcessFilesystem.Write | src/host.rs:387-390 | the store's own write |
| IpcFilesystem.IpcFilesystem.Read | src/host.rs:418-425 | the service's answer to an empty request, its bytes at the front of the buffer |
| IpcFilesystem.IpcFilesystem.Write | src/host.rs:427-434 | the service's answer to the data itself |
| Revocation.RunKeepsInv | confined-runtime/src/lib.rs:281-295 | every interleaving stays where each point of the runtime's program says everyone else is |
| Revocation.PassedMeansObserved | confined-runtime/src/lib.rs:249-305 | the runtime passes only where the service accepted the open request, served the revocation, refused that request and answered the second probe's requests, as many as the guest made, so that its report was a refusal |
| Revocation.KeptPromisesPass | confined-runtime/src/lib.rs:281-305 | with both promises kept and no failing system call, a run that can go no further has passed exactly when the request was accepted and the guest, refused throughout, reports a refusal |
| Revocation.RunsAreBounded | confined-runtime/src/lib.rs:281-295 | the parties together take at most 48 steps, and eight for each request the second probe has fuel for |
| Revocation.NeverStuck | confined-runtime/src/lib.rs:281-284 | with a service that serves `REVOKE` while it waits, some party can always move |
| Revocation.PassingWitnessesTheGuarantee | confined-runtime/src/lib.rs:281-290 | a run can pass exactly when the service accepts, serves `REVOKE` while it waits, refuses, and may answer the guest so that it reports a refusal; it can deadlock exactly when it accepts and does not serve it |
| RevocationServices.KeystoreServiceRefuses | THREAT_MODEL.md:22 | revoking a badge in the keystore's records makes its service refuse every well-formed request under it |
| RevocationServices.StoreServiceRefuses | THREAT_MODEL.md:22 | the same for the store |
| RevocationServices.KeyStatusIsTheCalls | confined-runtime/src/lib.rs:281-305 | each chunk's status is what the whole request comes to on the keystore's records of that moment |
| RevocationServices.FileStatusIsTheRequests | confined-runtime/src/lib.rs:281-305 | the same for the store |
| RevocationServices.KeystoreRevocationIsFinal | confined-runtime/src/lib.rs:281-305 | the exchange with a keystore-service, refusing by its own access check, and any guest: only `ACCESS` after the revocation, and a run at rest has passed exactly when the request was accepted and that guest, refused, says so |
| RevocationServices.StoreRevocationIsFinal | confined-runtime/src/lib.rs:281-305 | the same with a store-service |
| LaunchRevocation.RunSeen | confined-runtime/src/lib.rs:285-305 | what the runtime has been told in a run says where it is and with what detail it failed |
| LaunchRevocation.RunProbeIsTheExchange | confined-runtime/src/lib.rs:249-305 | over a world that answers as a finished run of the exchange, the program's probe stage succeeds exactly when the first report passed and that run passed, fails with that run's detail, and reports the guest's trap as such |
| Launch.Launcher.VerifyPackage | confined-runtime/src/lib.rs:222-244 | the four verification steps in order; only a package a trusted publisher verifies, with code in it, comes out |
| Launch.VerifiesUnderAny | confined-runtime/src/lib.rs:236-240 | the loop accepts exactly when some trusted publisher's key verifies |
| Launch.Tamper | confined-runtime/src/lib.rs:231-235 | the copy differs in the lowest bit of the last code byte |
| Launch.Launcher.Plan | confined-runtime/src/lib.rs:211-213 | the verified manifest is parsed, and a plan this process cannot wire is refused |
| Launch.Launcher.RequestGrant | confined-runtime/src/lib.rs:182-199 | bind, then the four refusals in order exactly when granted |
| Launch.Launcher.CheckAttenuation | confined-runtime/src/main.rs:83-91 | a granted keystore must refuse an encryption with `ACCESS` |
| Launch.CheckReport | confined-runtime/src/lib.rs:309-317 | passes exactly for the prefix and every marker; else blames the prefix or the first missing marker |
| Launch.Launcher.RevokeDuringOpenRequest | confined-runtime/src/lib.rs:285-305 | open, signal, wait, close, in order; the open passes exactly for low half 0, the close exactly for low half 1, and any other close is blamed with its own status and bit eight |
| Launch.Launcher.RunProbe | confined-runtime/src/lib.rs:249-279 | from deserialize to the second report, in order, stopping at the first step that does not pass |
| Launch.Launcher.HostKeystore | confined-runtime/src/main.rs:73-104 | the keystore wiring's steps, with only the keystore linked |
| Launch.Launcher.HostFilesystem | confined-runtime/src/main.rs:106-127 | the filesystem wiring's steps, with only the filesystem linked |
| Launch.Launcher.HostTheGuest | confined-runtime/src/main.rs:49-64 | the whole checklist of the package's own plan, followed exactly as far as its first failing step |
| Launch.Launcher.RunAndReport | confined-runtime/src/lib.rs:155-166 | success is signalled exactly when the whole checklist passed; else the first failing step's stage and detail |
| LaunchRuns.VerifiedBeforeUse | confined-runtime/src/lib.rs:201-244 | on every run, failing ones too, nothing is parsed or deserialized before the package verified and its altered copy did not, and only that package's bytes are |
| LaunchRuns.SuccessMeansEverything | confined-runtime/src/lib.rs:155-305 | success means a granted bind, every check passed in order, and the ending with the open request and the second report both refused |
| LaunchRuns.CodesIdentifyTheStep | confined-runtime/src/lib.rs:112-139 | the signalled stage and detail name the failing step, apart from three shared codes for error returns |
| LaunchRuns.SignalTellsTheOutcome | confined-runtime/src/lib.rs:112-166 | the signal decides the outcome: the notification says whether the run succeeded, and stage and detail words are no other failure's |
| LaunchRuns.StageWordsCountUp | confined-runtime/src/lib.rs:110-142 | the stage words are 0 to 11 in the stages' order |
| LaunchRuns.ContainsIffItSplits | confined-runtime/src/lib.rs:309-317 | a report contains a marker exactly when it is text, the marker, and text |
| LaunchRuns.StatusIsTheLowHalf | confined-runtime/src/lib.rs:298-305 | a reply's status is the low sixteen bits of its label, whatever the others hold |
| LaunchRuns.OrSetsBitEight | confined-runtime/src/lib.rs:293 | the detail of a close that was not refused sets bit eight of its status and no other |
| LaunchRuns.OneBitIsAltered | confined-runtime/src/lib.rs:231-235 | the altered copy keeps manifest, signature and length, and differs in the lowest bit of the last code byte alone |
| LaunchReference.EveryRunIsTheTables | confined-runtime/src/lib.rs:155-317 | every event of every run is the next turn of one table over positions, every turn but the last went well, and the run ends in the last one's literal stage and detail or after all of them |
| LaunchReference.RunsAreDetermined | confined-runtime/src/lib.rs:155-317 | two runs in one world take the same steps and end the same |
| LaunchReference.GrantSurvivesRefusals | confined-runtime/src/lib.rs:182-199 | once the binder grants, the code is loaded only after the second bind was declined, the grant refused with status 1, the listing empty and the revocation unsuccessful; with a keystore, after the encryption was denied with status 1 |
| LaunchRuns.OneManifest | confined-runtime/src/main.rs:93-103 | on every run the guest is linked against, and its host built from, one manifest: the one the package's plan and the binder's answer call for |
| LaunchRuns.SlotLinkOpenAgree | confined-runtime/src/main.rs:66-71 | in every launch exactly the planned resource is linked; at any point `open` yields a handle exactly for slot 0 of a launch the binder granted; no clock can be imported |
| LaunchRuns.OnlyTheGrantIsUsed | confined-runtime/src/main.rs:73-127 | whatever the guest does, its service is made to serve only the granted badge and the object that badge names, and nothing when the bind was declined |
| LaunchRuns.GrantedKeyIsServed | confined-runtime/src/main.rs:93-103 | in a granted keystore launch the handle opened at slot 0 is served by the keystore under the granted badge on that badge's own key |
| LaunchRuns.GrantedFileIsServed | confined-runtime/src/main.rs:116-127 | the same for a filesystem launch's reads |
| FsGuest.Probe | confined-fs-guest/src/lib.rs:26-72 | the report is decided by the grant, what the service answers and the file's content; afterwards a fresh writable file holds the guest's text, every other file is as before, and no handle is left |
| FsGuest.ReadBack | confined-fs-guest/src/lib.rs:44-71 | once the write was accepted and the handle can read, only a handle leaked at slot 1 changes the report |
| GuestReports.TextOf | confined-runtime/src/lib.rs:309-317 | the launcher's text checks read each report as its verdict: the prefix, all markers, or a refusal |
| GuestReports.OkText | confined-fs-guest/src/lib.rs:66-70 | the ok report in full |
| GuestReports.DecimalSays | confined-fs-guest/src/lib.rs:66-70 | the digits of a length say that length |
| FsGuestRuns.VerdictIsExact | confined-fs-guest/src/lib.rs:26-72 | ok exactly when slot 0 opens, reading and writing are allowed and the file starts empty; the markers exactly when slot 1 also stays shut; a refusal exactly when the service refused |
| FsGuestRuns.LeakIffSlotOneOpens | confined-fs-guest/src/lib.rs:62-64 | the report says LEAKED exactly when the file is ready, slot 1 is filled and the table has two indices free |
| FsGuestRuns.OversizedByOneByte | confined-fs-guest/src/lib.rs:19-57 | the guest's oversized write is the shortest the host refuses as `invalid` |
| FsGuestRuns.SecondProbeRefusedIffRevoked | confined-runtime/src/lib.rs:273-278 | a second probe on a live grant fails only as not fresh; after a revocation it reads as a refusal exactly when the file's own badge was revoked |
| FsGuestRuns.ProbeRevokeProbe | confined-runtime/src/lib.rs:270-278 | both probes run on one host object with a revocation at its service between them: after an ok, the second is a refusal exactly when the badge revoked is the one the file is reached by |
| FsGuestRuns.LaunchedVerdict | confined-runtime/src/main.rs:116-125 | in every launch the guest finds the file fine exactly when the binder granted the slot, the table has room and the file is ready, and never gets a second handle |
| FsLaunch.LaunchSucceedsIff | confined-runtime/src/main.rs:106-127 | a launch of the filesystem guest on its own store, with a finished run of the exchange and nothing else failing, succeeds exactly when the binder granted the file, the file was ready and the service accepted the request that the revocation interrupts |

## Left out

- Wasmtime, Pulley, generated bindings and fuel: a foreign engine; a guest is any sequence of host calls.
- Cryptographic algorithms, the package and manifest parsers, and the launch binder's policy: parameters.
- `src/verified.rs`, `src/compiler.rs`, `examples/precompile.rs`: thin wrappers; the order of verification and deserialization is in `LaunchRuns.VerifiedBeforeUse`.
- TLS, lock, memory-image and page-size functions, and the `wasmtime_*` C signatures around the arena: one-line functions.
- `confined-probe-guest`: a simpler sibling of the filesystem guest.
- MaskRound: models a build without overflow checks, where `size + 4095` wraps; a build with them panics on the 4095 largest sizes instead.
- PageArena.Arena.Alloc: the loop is given finitely many turns and reports `StillRetrying` after them, because spurious failures may go on for ever.
- Memory ordering in the page arena: accesses are relaxed, as in the source, and one caller never sees the counter go back; the counter is the only shared word, so no other ordering matters.
- `MonotonicClock.now_ns` is a value rather than a function call.
- `RefCell` borrows around the channels, `Channel` chunking, the VSpace and permissions a mapping names, and the arguments of the grant, list and revoke the binder must refuse: single-threaded bookkeeping of code not shown.
- FsLaunch.LaunchSucceedsIff: in the exchange the guest's second probe is its first read and its report, which is all of it once the service refuses.
- Launch.Launcher.RunAndReport: heap set-up, panic reporting and the final parking loop are not modelled; the heap use signalled on success is an input.
- FsGuest.Probe: the guest's text is any text of one block or less rather than its 70 bytes.
- HostTwins.ConfinedServicesAreIndistinguishable: asks that an aad be shorter than 2^32 bytes, which a 32-bit guest cannot exceed; `IpcKeystore.ExpectUnreachableIff` says what happens beyond.
