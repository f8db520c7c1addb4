/** The content store, in process and behind its confined `store-service`: one sealed block per file.
    The cipher is a parameter; all that is assumed of it is `Lawful`. */
module Store {
  import opened Prelude
  import Keystore

  const MAX_BLOCK_LEN: nat := 256

  /** The store-wide cipher. `refusal` is the status its own key grant is refused with, if it is refused:
      then nothing is sealed or opened. */
  datatype Cipher = Cipher(
    refusal: Option<nat>,
    seal: (nat, seq<byte>) -> seq<byte>,
    unseal: (nat, seq<byte>) -> Option<seq<byte>>)

  /** Opening what was sealed for a file gives it back. */
  ghost predicate Lawful(c: Cipher) {
    forall file, plain :: c.unseal(file, c.seal(file, plain)) == Some(plain)
  }

  datatype FileRecord = FileRecord(block: Option<seq<byte>>, destroyed: bool)

  datatype FileGrant = FileGrant(file: nat, read: bool, write: bool, revoked: bool)

  datatype Store = Store(cipher: Cipher, files: map<nat, FileRecord>, grants: map<nat, FileGrant>)

  datatype StoreError =
    | UnknownBadge | BadgeRevoked | OpNotGranted | WrongFile | NoSuchFile | FileDestroyed
    | FileEmpty | BlockTooLarge | CipherFailure
    | RemoteCryptoDenied(status: nat)
    | Channel(error: Keystore.ChannelError)

  function CheckAccess(st: Store, badge: nat, file: nat, writing: bool): Option<StoreError> {
    if badge !in st.grants then Some(UnknownBadge)
    else if st.grants[badge].revoked then Some(BadgeRevoked)
    else if st.grants[badge].file != file then Some(WrongFile)
    else if !(if writing then st.grants[badge].write else st.grants[badge].read) then Some(OpNotGranted)
    else if file !in st.files then Some(NoSuchFile)
    else if st.files[file].destroyed then Some(FileDestroyed)
    else None
  }

  function ReadBlock(st: Store, badge: nat, file: nat): Result<seq<byte>, StoreError> {
    match CheckAccess(st, badge, file, false)
    case Some(e) => Err(e)
    case None =>
      if file !in st.files then Err(NoSuchFile)
      else match st.files[file].block
           case None => Err(FileEmpty)
           case Some(sealed) =>
             if st.cipher.refusal.Some? then Err(RemoteCryptoDenied(st.cipher.refusal.value)) else
             match st.cipher.unseal(file, sealed)
             case None => Err(CipherFailure)
             case Some(plain) => Ok(plain)
  }

  function WriteBlock(st: Store, badge: nat, file: nat, data: seq<byte>): (Store, Result<(), StoreError>) {
    match CheckAccess(st, badge, file, true)
    case Some(e) => (st, Err(e))
    case None =>
      if file !in st.files then (st, Err(NoSuchFile))
      else if |data| > MAX_BLOCK_LEN then (st, Err(BlockTooLarge))
      else if st.cipher.refusal.Some? then (st, Err(RemoteCryptoDenied(st.cipher.refusal.value)))
      else (st.(files := st.files[file := st.files[file].(block := Some(st.cipher.seal(file, data)))]), Ok(()))
  }

  function Revoke(st: Store, badge: nat): Store {
    if badge in st.grants then st.(grants := st.grants[badge := st.grants[badge].(revoked := true)]) else st
  }

  predicate IsDenial(e: StoreError) {
    e in {UnknownBadge, BadgeRevoked, OpNotGranted, WrongFile, NoSuchFile, FileDestroyed}
  }

  /** `to_fs_error_code`. */
  function ToErrorCode(e: StoreError): Keystore.ErrorCode {
    match e
    case UnknownBadge | BadgeRevoked | OpNotGranted | WrongFile | NoSuchFile | FileDestroyed => Keystore.Access
    case RemoteCryptoDenied(status) => if status == Keystore.STATUS_ACCESS then Keystore.Access else Keystore.Invalid
    case _ => Keystore.Invalid
  }

  // ----- The confined service and the runtime's side of the channel -----

  datatype WireOp = OP_READ | OP_WRITE

  function FileOf(st: Store, badge: nat): nat {
    if badge in st.grants then st.grants[badge].file else 0
  }

  function StatusOf(e: StoreError): nat {
    if ToErrorCode(e) == Keystore.Access then Keystore.STATUS_ACCESS else Keystore.STATUS_INVALID
  }

  /** `store-service` serving one request under the kernel-delivered `badge`. An unwritten file is
      answered with success and no bytes. */
  function Serve(st: Store, badge: nat, op: WireOp, request: seq<byte>): (Store, Keystore.Answer) {
    match op
    case OP_READ =>
      (match ReadBlock(st, badge, FileOf(st, badge))
       case Ok(plain) => (st, Keystore.Answered(Keystore.STATUS_OK, plain))
       case Err(FileEmpty) => (st, Keystore.Answered(Keystore.STATUS_OK, []))
       case Err(e) => (st, Keystore.Answered(StatusOf(e), [])))
    case OP_WRITE =>
      var (st', r) := WriteBlock(st, badge, FileOf(st, badge), request);
      (match r
       case Ok(_) => (st', Keystore.Answered(Keystore.STATUS_OK, []))
       case Err(e) => (st', Keystore.Answered(StatusOf(e), [])))
  }

  /** `IpcFilesystem::read` on an answer, into a buffer of one block. */
  function ReadAnswer(a: Keystore.Answer): Result<seq<byte>, StoreError> {
    match a
    case NoAnswer => Err(Channel(Keystore.Transport))
    case Answered(status, payload) =>
      if |payload| > MAX_BLOCK_LEN then Err(Channel(Keystore.Malformed))
      else if status != Keystore.STATUS_OK then Err(RemoteCryptoDenied(status))
      else Ok(payload)
  }

  /** `IpcFilesystem::write` on an answer, whose reply buffer is empty. */
  function WriteAnswer(a: Keystore.Answer): Result<(), StoreError> {
    match a
    case NoAnswer => Err(Channel(Keystore.Transport))
    case Answered(status, payload) =>
      if |payload| > 0 then Err(Channel(Keystore.Malformed))
      else if status != Keystore.STATUS_OK then Err(RemoteCryptoDenied(status))
      else Ok(())
  }

  // ----- What a guest sees -----

  /** `HostFile::read`'s own translation: an unwritten file is an empty file. */
  function GuestRead(r: Result<seq<byte>, StoreError>): Result<seq<byte>, Keystore.ErrorCode> {
    match r
    case Ok(bytes) => Ok(bytes)
    case Err(FileEmpty) => Ok([])
    case Err(e) => Err(ToErrorCode(e))
  }

  function GuestWrite(r: Result<(), StoreError>): Result<(), Keystore.ErrorCode> {
    match r
    case Ok(_) => Ok(())
    case Err(e) => Err(ToErrorCode(e))
  }

  /** A file's content: empty until its first write. */
  function Content(st: Store, file: nat): seq<byte> {
    if file !in st.files || st.files[file].block.None? then []
    else match st.cipher.unseal(file, st.files[file].block.value)
         case None => []
         case Some(plain) => plain
  }

  /** What a guest is told when the store's own key grant is refused. */
  function RefusalCode(c: Cipher): Option<Keystore.ErrorCode> {
    if c.refusal.None? then None else Some(ToErrorCode(RemoteCryptoDenied(c.refusal.value)))
  }

  /** What the store can give of a file: nothing of a written one while its own key grant is refused. */
  function Held(st: Store, file: nat): Result<seq<byte>, Keystore.ErrorCode> {
    if file in st.files && st.files[file].block.Some? && st.cipher.refusal.Some? then Err(RefusalCode(st.cipher).value)
    else Ok(Content(st, file))
  }

  /** Every block at rest opens, to at most one block of content. */
  ghost predicate Sound(st: Store) {
    && Lawful(st.cipher)
    && forall file :: file in st.files && st.files[file].block.Some? ==>
         st.cipher.unseal(file, st.files[file].block.value).Some? && |Content(st, file)| <= MAX_BLOCK_LEN
  }

  predicate Bound(st: Store, badge: nat, file: nat) {
    badge in st.grants ==> st.grants[badge].file == file
  }

  /** A guest read returns what the store can give of the file exactly when the badge allows it, else
      `access`. */
  lemma ReadIsContent(st: Store, badge: nat, file: nat)
    requires Sound(st)
    ensures GuestRead(ReadBlock(st, badge, file)) ==
            if CheckAccess(st, badge, file, false).None? then Held(st, file) else Err(Keystore.Access)
  {
  }

  /** Whatever answers the channel, a guest reads `access` exactly for a reply that fits with status 1, the
      payload for success, and `invalid` for everything else; a write's reply carries nothing. */
  lemma AnswersReadAs(a: Keystore.Answer)
    ensures GuestRead(ReadAnswer(a)) ==
            if a.NoAnswer? || |a.payload| > 256 || a.status > 1 then Err(Keystore.Invalid)
            else if a.status == 1 then Err(Keystore.Access) else Ok(a.payload)
    ensures GuestWrite(WriteAnswer(a)) ==
            if a.NoAnswer? || |a.payload| > 0 || a.status > 1 then Err(Keystore.Invalid)
            else if a.status == 1 then Err(Keystore.Access) else Ok(())
  {
  }

  /** An accepted write becomes that file's whole content; a refused one, an oversized one included,
      changes nothing; no write touches another file. */
  lemma WriteIsContent(st: Store, badge: nat, file: nat, data: seq<byte>)
    requires Sound(st)
    ensures var (st', r) := WriteBlock(st, badge, file, data);
            && Sound(st') && st'.grants == st.grants && st'.cipher == st.cipher
            && (r.Ok? <==>
                  CheckAccess(st, badge, file, true).None? && |data| <= MAX_BLOCK_LEN && st.cipher.refusal.None?)
            && (CheckAccess(st, badge, file, true).None? && |data| <= MAX_BLOCK_LEN && st.cipher.refusal.Some? ==>
                  GuestWrite(r) == Err(RefusalCode(st.cipher).value))
            && (r.Err? ==> st' == st)
            && (forall f :: Content(st', f) == if r.Ok? && f == file then data else Content(st, f))
  {
    var (st', r) := WriteBlock(st, badge, file, data);
    if r.Ok? {
      assert st'.files[file].block == Some(st.cipher.seal(file, data));
      forall f ensures Content(st', f) == if f == file then data else Content(st, f) {
      }
    }
  }

  /** Reading or writing over the channel and in process look the same to the guest, and leave the
      store the same. */
  lemma RemoteRefinesLocal(st: Store, badge: nat, file: nat, data: seq<byte>)
    requires Sound(st) && Bound(st, badge, file)
    ensures GuestRead(ReadAnswer(Serve(st, badge, OP_READ, []).1)) == GuestRead(ReadBlock(st, badge, file))
    ensures Serve(st, badge, OP_READ, []).0 == st
    ensures GuestWrite(WriteAnswer(Serve(st, badge, OP_WRITE, data).1))
            == GuestWrite(WriteBlock(st, badge, file, data).1)
    ensures Serve(st, badge, OP_WRITE, data).0 == WriteBlock(st, badge, file, data).0
  {
    assert badge in st.grants ==> FileOf(st, badge) == file;
  }

  // ----- Exactly when a channel answers for a handle -----

  /** The store's records let `badge` read (or write) `file`. */
  predicate Permits(st: Store, badge: nat, file: nat, writing: bool) {
    && badge in st.grants && !st.grants[badge].revoked && st.grants[badge].file == file
    && (if writing then st.grants[badge].write else st.grants[badge].read)
    && file in st.files && !st.files[file].destroyed
  }

  lemma AccessByRecords(st: Store, badge: nat, file: nat, writing: bool)
    ensures CheckAccess(st, badge, file, writing).None? <==> Permits(st, badge, file, writing)
    ensures CheckAccess(st, badge, file, writing).Some? ==> IsDenial(CheckAccess(st, badge, file, writing).value)
  {
  }

  /** A read of `file` under `badge` is refused: by the records, or because the store's own key grant is. */
  predicate Blocked(st: Store, badge: nat, file: nat) {
    !Permits(st, badge, file, false) || Held(st, file) == Err(Keystore.Access)
  }

  /** A channel of badge `c` ignores the badge and file of the handle, `b` and `f`. A read answers alike
      exactly when both are refused or neither is, and then what the store can give is the same. */
  lemma ReadAgreementIff(st: Store, c: nat, b: nat, f: nat)
    requires Sound(st)
    ensures GuestRead(ReadAnswer(Serve(st, c, OP_READ, []).1)) == GuestRead(ReadBlock(st, b, f)) <==>
            && (Blocked(st, c, FileOf(st, c)) <==> Blocked(st, b, f))
            && (!Blocked(st, b, f) ==> Held(st, FileOf(st, c)) == Held(st, f))
  {
    RemoteRefinesLocal(st, c, FileOf(st, c), []);
    ReadIsContent(st, c, FileOf(st, c));
    ReadIsContent(st, b, f);
    AccessByRecords(st, c, FileOf(st, c), false);
    AccessByRecords(st, b, f, false);
  }

  /** The guest is told the same of every write. */
  ghost predicate WritesAnswerAlike(st: Store, c: nat, b: nat, f: nat) {
    forall data :: GuestWrite(WriteAnswer(Serve(st, c, OP_WRITE, data).1)) == GuestWrite(WriteBlock(st, b, f, data).1)
  }

  /** Every write leaves the same store behind. */
  ghost predicate WritesActAlike(st: Store, c: nat, b: nat, f: nat) {
    forall data :: Serve(st, c, OP_WRITE, data).0 == WriteBlock(st, b, f, data).0
  }

  /** All writes answer alike exactly when the records let both write or neither; they also act alike
      exactly when, besides, the handle names the file the channel's badge was granted or no write can
      succeed at all. */
  lemma WriteAgreementIff(st: Store, c: nat, b: nat, f: nat)
    requires Sound(st)
    ensures WritesAnswerAlike(st, c, b, f) <==> (Permits(st, c, FileOf(st, c), true) <==> Permits(st, b, f, true))
    ensures WritesAnswerAlike(st, c, b, f) && WritesActAlike(st, c, b, f) <==>
            && (Permits(st, c, FileOf(st, c), true) <==> Permits(st, b, f, true))
            && (Permits(st, b, f, true) ==> FileOf(st, c) == f || st.cipher.refusal.Some?)
  {
    var g := FileOf(st, c);
    forall data
      ensures GuestWrite(WriteAnswer(Serve(st, c, OP_WRITE, data).1)) == GuestWrite(WriteBlock(st, c, g, data).1)
      ensures Serve(st, c, OP_WRITE, data).0 == WriteBlock(st, c, g, data).0
    {
      RemoteRefinesLocal(st, c, g, data);
    }
    AccessByRecords(st, c, g, true);
    AccessByRecords(st, b, f, true);
    hide CheckAccess, Permits, Serve, WriteAnswer;
    if WritesAnswerAlike(st, c, b, f) {
      var long := seq<byte>(MAX_BLOCK_LEN + 1, i => 0);
      assert GuestWrite(WriteBlock(st, c, g, long).1) == GuestWrite(WriteBlock(st, b, f, long).1);
    }
    if Permits(st, b, f, true) && Permits(st, c, g, true) && g != f && st.cipher.refusal.None? {
      DifferentFilesShow(st, c, g, b, f);
    }
  }

  lemma DifferentFilesShow(st: Store, c: nat, g: nat, b: nat, f: nat)
    requires Sound(st) && g != f
    requires CheckAccess(st, c, g, true).None? && CheckAccess(st, b, f, true).None? && st.cipher.refusal.None?
    ensures exists data :: WriteBlock(st, c, g, data).0 != WriteBlock(st, b, f, data).0
  {
    var x, y: seq<byte> := [], [0];
    assert st.cipher.unseal(f, st.cipher.seal(f, x)) != st.cipher.unseal(f, st.cipher.seal(f, y));
    var data := if st.files[f].block == Some(st.cipher.seal(f, x)) then y else x;
    assert WriteBlock(st, b, f, data).0.files[f].block != WriteBlock(st, c, g, data).0.files[f].block;
  }
}
