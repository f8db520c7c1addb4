/** The confined services in the revocation exchange: `keystore-service` and `store-service` deciding each
    chunk by their own records, so that refusing a revoked badge is what their access check does. */
module RevocationServices {
  import opened Prelude
  import R = Revocation
  import K = Keystore
  import I = IpcKeystore
  import S = Store

  /** An answer's status; a service that sends none counts as refusing the arguments. */
  function StatusOf(a: K.Answer): nat {
    match a
    case NoAnswer => K.STATUS_INVALID
    case Answered(status, _) => status
  }

  /** `keystore-service` under the runtime's badge. The request left open is an empty signature; `calls`
      are the calls the guest's second probe makes, in order. Until the revocation the service is free to accept an
      opening chunk or not; every other status is its answer to the whole request. */
  function KeyStatus(ks: K.Keystore, badge: nat, calls: nat -> K.KeyCall, revoked: bool, chunk: R.Chunk,
                     choice: nat): nat
    requires forall n :: I.Encodable(calls(n))
  {
    var now := if revoked then K.Revoke(ks, badge) else ks;
    match chunk
    case OpenChunk => if revoked then StatusOf(K.ServiceAnswer(now, badge, K.OP_SIGN, [])) else choice
    case CloseChunk => StatusOf(K.ServiceAnswer(now, badge, K.OP_SIGN, []))
    case ProbeRequest(n) => StatusOf(K.ServiceAnswer(now, badge, I.OpCodeOf(calls(n)), I.RequestBytes(calls(n))))
  }

  ghost function KeystoreService(ks: K.Keystore, badge: nat, calls: nat -> K.KeyCall, serves: bool)
    : (service: R.Service)
    requires forall n :: I.Encodable(calls(n))
    ensures service.servesWhileAwaiting == serves
  {
    R.Service((revoked, chunk, choice) => KeyStatus(ks, badge, calls, revoked, chunk, choice), serves)
  }

  /** `store-service` likewise: the request left open is a read, and `requests` are the second probe's. */
  function FileStatus(st: S.Store, badge: nat, requests: nat -> (S.WireOp, seq<byte>), revoked: bool, chunk: R.Chunk,
                      choice: nat): nat
  {
    var now := if revoked then S.Revoke(st, badge) else st;
    match chunk
    case OpenChunk => if revoked then StatusOf(S.Serve(now, badge, S.OP_READ, []).1) else choice
    case CloseChunk => StatusOf(S.Serve(now, badge, S.OP_READ, []).1)
    case ProbeRequest(n) => StatusOf(S.Serve(now, badge, requests(n).0, requests(n).1).1)
  }

  function StoreService(st: S.Store, badge: nat, requests: nat -> (S.WireOp, seq<byte>), serves: bool)
    : (service: R.Service)
    ensures service.servesWhileAwaiting == serves
  {
    R.Service((revoked, chunk, choice) => FileStatus(st, badge, requests, revoked, chunk, choice), serves)
  }

  /** A chunk's status is what the whole request would come to on the records of the moment: 0 for a reply, 1
      for a denial and 2 for any other failure. */
  lemma KeyStatusIsTheCalls(ks: K.Keystore, badge: nat, calls: nat -> K.KeyCall, revoked: bool, n: nat, choice: nat)
    requires K.Lawful(ks.primitives) && forall n :: I.Encodable(calls(n))
    ensures var now := if revoked then K.Revoke(ks, badge) else ks;
            && KeyStatus(ks, badge, calls, revoked, R.ProbeRequest(n), choice) == Comes(now, badge, calls(n))
            && KeyStatus(ks, badge, calls, revoked, R.CloseChunk, choice) == Comes(now, badge, K.Sign([]))
  {
    hide K.Serve, K.DecodeCall, I.RequestBytes, I.Encodable, K.ReplyBytes, K.Revoke;
    var now := if revoked then K.Revoke(ks, badge) else ks;
    SameCipher(ks, badge);
    CallComes(now, badge, calls(n));
    CallComes(now, badge, K.Sign([]));
    assert I.RequestBytes(K.Sign([])) == [];
  }

  function Comes(ks: K.Keystore, badge: nat, call: K.KeyCall): nat {
    match K.Serve(ks, badge, K.KeyOf(ks, badge), call)
    case Ok(_) => 0
    case Err(e) => if K.ToErrorCode(e) == K.Access then 1 else 2
  }

  lemma SameCipher(ks: K.Keystore, badge: nat)
    ensures K.Revoke(ks, badge).primitives == ks.primitives
    ensures I.Encodable(K.Sign([])) && I.RequestBytes(K.Sign([])) == []
  {
  }

  lemma CallComes(ks: K.Keystore, badge: nat, call: K.KeyCall)
    requires K.Lawful(ks.primitives) && I.Encodable(call)
    ensures StatusOf(K.ServiceAnswer(ks, badge, I.OpCodeOf(call), I.RequestBytes(call))) == Comes(ks, badge, call)
  {
    hide I.RequestBytes, K.DecodeCall, I.Encodable, K.ReplyBytes;
    I.RequestRoundTrip(call);
  }

  lemma FileStatusIsTheRequests(st: S.Store, badge: nat, requests: nat -> (S.WireOp, seq<byte>), revoked: bool, n: nat,
                                choice: nat)
    ensures var now := if revoked then S.Revoke(st, badge) else st;
            var (op, bytes) := requests(n);
            var file := S.FileOf(now, badge);
            && FileStatus(st, badge, requests, revoked, R.CloseChunk, choice) ==
               ReadComes(S.GuestRead(S.ReadBlock(now, badge, file)))
            && FileStatus(st, badge, requests, revoked, R.ProbeRequest(n), choice) ==
               if op == S.OP_READ then ReadComes(S.GuestRead(S.ReadBlock(now, badge, file)))
               else WriteComes(S.GuestWrite(S.WriteBlock(now, badge, file, bytes).1))
  {
    hide S.ReadBlock, S.WriteBlock, S.Revoke;
  }

  function ReadComes(r: Result<seq<byte>, K.ErrorCode>): nat {
    if r.Ok? then 0 else if r.error == K.Access then 1 else 2
  }

  function WriteComes(r: Result<(), K.ErrorCode>): nat {
    if r.Ok? then 0 else if r.error == K.Access then 1 else 2
  }

  lemma RevokedCallIsRefused(ks: K.Keystore, badge: nat, call: K.KeyCall)
    requires I.Encodable(call)
    ensures K.ServiceAnswer(K.Revoke(ks, badge), badge, I.OpCodeOf(call), I.RequestBytes(call))
            == K.Answered(K.STATUS_ACCESS, [])
  {
    hide I.Encodable, I.RequestBytes, K.ServiceAnswer;
    I.DeadCallIsDenied(K.Revoke(ks, badge), badge, call);
  }

  /** Revoking a badge in the keystore's records makes its service refuse every well-formed request under
      that badge. */
  lemma KeystoreServiceRefuses(ks: K.Keystore, badge: nat, calls: nat -> K.KeyCall, serves: bool)
    requires forall n :: I.Encodable(calls(n))
    ensures R.RefusesRevoked(KeystoreService(ks, badge, calls, serves))
  {
    hide K.ServiceAnswer, K.Revoke;
    RevokedCallIsRefused(ks, badge, K.Sign([]));
    forall chunk: R.Chunk, choice ensures KeyStatus(ks, badge, calls, true, chunk, choice) == R.ACCESS {
      if chunk.ProbeRequest? {
        RevokedCallIsRefused(ks, badge, calls(chunk.n));
      }
    }
  }

  lemma StoreServiceRefuses(st: S.Store, badge: nat, requests: nat -> (S.WireOp, seq<byte>), serves: bool)
    ensures R.RefusesRevoked(StoreService(st, badge, requests, serves))
  {
    forall chunk, choice ensures FileStatus(st, badge, requests, true, chunk, choice) == R.ACCESS {
    }
  }

  /** What the exchange comes to: once the revocation is served nothing but `ACCESS` is answered, and if no
      system call fails, a run at rest has passed exactly when the request was accepted and the guest, its
      every request refused, reports a refusal. */
  ghost predicate Final(service: R.Service, guest: R.Guest, acts: seq<R.Action>) {
    var s := R.Run(R.Start(service, guest), acts);
    && R.RefusedAfterRevoke(s.log)
    && (R.SyscallFails !in acts && R.AtRest(s) ==>
          && s.log != []
          && (s.runtime.Passed? <==> s.log[0] == R.Replied(R.OpenChunk, R.OK) && R.Verdict(guest, 0) == R.Report(true)))
  }

  /** The whole exchange with a `keystore-service` that serves `REVOKE` while it waits, whatever its keys
      and grants, whatever well-formed calls the guest's second probe makes and whatever it reports. */
  lemma KeystoreRevocationIsFinal(ks: K.Keystore, badge: nat, calls: nat -> K.KeyCall, guest: R.Guest,
                                  acts: seq<R.Action>)
    requires forall n :: I.Encodable(calls(n))
    ensures Final(KeystoreService(ks, badge, calls, true), guest, acts)
  {
    hide *;
    KeystoreServiceRefuses(ks, badge, calls, true);
    ExchangeIsFinal(KeystoreService(ks, badge, calls, true), guest, acts);
  }

  /** The same with a `store-service`. */
  lemma StoreRevocationIsFinal(st: S.Store, badge: nat, requests: nat -> (S.WireOp, seq<byte>), guest: R.Guest,
                               acts: seq<R.Action>)
    ensures Final(StoreService(st, badge, requests, true), guest, acts)
  {
    hide *;
    StoreServiceRefuses(st, badge, requests, true);
    ExchangeIsFinal(StoreService(st, badge, requests, true), guest, acts);
  }

  lemma ExchangeIsFinal(service: R.Service, guest: R.Guest, acts: seq<R.Action>)
    requires R.RefusesRevoked(service) && service.servesWhileAwaiting
    ensures Final(service, guest, acts)
  {
    hide R.Run, R.Start, R.RefusesRevoked, R.Verdict, R.AtRest;
    var s := R.Run(R.Start(service, guest), acts);
    forall i, j | 0 <= i < j < |s.log| && s.log[i] == R.RevokeServed && s.log[j].Replied?
      ensures s.log[j].status == R.ACCESS
    {
      R.NothingAfterTheRevocation(service, guest, acts, i, j);
    }
    if R.SyscallFails !in acts && R.AtRest(s) {
      R.KeptPromisesPass(service, guest, acts);
    }
  }
}
