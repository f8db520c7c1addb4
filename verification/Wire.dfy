/** The request and reply encodings between the runtime and a confined `keystore-service`, as byte
    strings and as the in-place encoders that fill a caller-sized buffer. */
module Wire {
  import opened Prelude

  const NONCE_LEN: nat := 24
  const TAG_LEN: nat := 16
  const SIGNATURE_LEN: nat := 64
  const PREFIX_LEN: nat := 4
  const PREFIX_LIMIT: nat := 0x1_0000_0000

  // ----- Length prefixes -----

  function Low(n: nat): byte {
    (n % 256) as byte
  }

  /** A length as four bytes, least significant first. */
  function Prefix(n: nat): (s: seq<byte>)
    requires n < PREFIX_LIMIT
    ensures |s| == PREFIX_LEN
  {
    [Low(n), Low(n / 256), Low(n / 256 / 256), Low(n / 256 / 256 / 256)]
  }

  function PrefixValue(s: seq<byte>): (n: nat)
    requires |s| == PREFIX_LEN
    ensures n < PREFIX_LIMIT
  {
    s[0] as nat + 256 * (s[1] as nat + 256 * (s[2] as nat + 256 * (s[3] as nat)))
  }

  lemma PrefixRoundTrip(n: nat)
    requires n < PREFIX_LIMIT
    ensures PrefixValue(Prefix(n)) == n
  {
  }

  lemma LowHigh(b: byte, high: nat)
    ensures Low(b as nat + 256 * high) == b && (b as nat + 256 * high) / 256 == high
  {
  }

  lemma PrefixCanonical(s: seq<byte>)
    requires |s| == PREFIX_LEN
    ensures Prefix(PrefixValue(s)) == s
  {
    hide Low;
    var n2 := s[2] as nat + 256 * (s[3] as nat);
    LowHigh(s[3], 0);
    LowHigh(s[2], s[3] as nat);
    LowHigh(s[1], n2);
    LowHigh(s[0], s[1] as nat + 256 * n2);
  }

  function Field(s: seq<byte>): seq<byte>
    requires |s| < PREFIX_LIMIT
  {
    Prefix(|s|) + s
  }

  /** A length-prefixed field off the front, and the rest. */
  function TakeField(s: seq<byte>): Option<(seq<byte>, seq<byte>)> {
    if |s| < PREFIX_LEN then None else
    var n := PrefixValue(s[..PREFIX_LEN]);
    if |s| - PREFIX_LEN < n then None
    else Some((s[PREFIX_LEN..PREFIX_LEN + n], s[PREFIX_LEN + n..]))
  }

  lemma TakeFieldOfField(s: seq<byte>, rest: seq<byte>)
    requires |s| < PREFIX_LIMIT
    ensures TakeField(Field(s) + rest) == Some((s, rest))
  {
    PrefixRoundTrip(|s|);
    var whole := Field(s) + rest;
    assert whole[..PREFIX_LEN] == Prefix(|s|);
    assert whole[PREFIX_LEN..PREFIX_LEN + |s|] == s;
    assert whole[PREFIX_LEN + |s|..] == rest;
  }

  lemma TakeFieldCanonical(s: seq<byte>)
    requires TakeField(s).Some?
    ensures var (field, rest) := TakeField(s).value; |field| < PREFIX_LIMIT && s == Field(field) + rest
  {
    PrefixCanonical(s[..PREFIX_LEN]);
  }

  // ----- Requests and replies -----

  datatype EncryptRequest = EncryptRequest(nonce: seq<byte>, aad: seq<byte>, plaintext: seq<byte>)

  datatype DecryptRequest = DecryptRequest(nonce: seq<byte>, aad: seq<byte>, tag: seq<byte>, ciphertext: seq<byte>)

  /** What the typed encoder accepts: a nonce of the right length and an aad whose length fits a prefix. */
  predicate EncryptEncodable(r: EncryptRequest) {
    |r.nonce| == NONCE_LEN && |r.aad| < PREFIX_LIMIT
  }

  predicate DecryptEncodable(r: DecryptRequest) {
    |r.nonce| == NONCE_LEN && |r.aad| < PREFIX_LIMIT && |r.tag| == TAG_LEN
  }

  function EncryptBytes(r: EncryptRequest): seq<byte>
    requires EncryptEncodable(r)
  {
    Field(r.nonce) + (Field(r.aad) + r.plaintext)
  }

  function DecryptBytes(r: DecryptRequest): seq<byte>
    requires DecryptEncodable(r)
  {
    Field(r.nonce) + (Field(r.aad) + (Field(r.tag) + r.ciphertext))
  }

  function DecodeEncrypt(s: seq<byte>): Option<EncryptRequest> {
    match TakeField(s)
    case None => None
    case Some((nonce, s1)) =>
      match TakeField(s1)
      case None => None
      case Some((aad, plaintext)) =>
        if |nonce| == NONCE_LEN then Some(EncryptRequest(nonce, aad, plaintext)) else None
  }

  function DecodeDecrypt(s: seq<byte>): Option<DecryptRequest> {
    match TakeField(s)
    case None => None
    case Some((nonce, s1)) =>
      match TakeField(s1)
      case None => None
      case Some((aad, s2)) =>
        match TakeField(s2)
        case None => None
        case Some((tag, ciphertext)) =>
          if |nonce| == NONCE_LEN && |tag| == TAG_LEN then Some(DecryptRequest(nonce, aad, tag, ciphertext)) else None
  }

  /** A request's bytes decode to that request, and only a request's own bytes do. */
  lemma EncryptWireExact(r: EncryptRequest, s: seq<byte>)
    ensures EncryptEncodable(r) && s == EncryptBytes(r) <==> DecodeEncrypt(s) == Some(r)
  {
    hide Field, TakeField;
    if EncryptEncodable(r) && s == EncryptBytes(r) {
      TakeFieldOfField(r.nonce, Field(r.aad) + r.plaintext);
      TakeFieldOfField(r.aad, r.plaintext);
    }
    if DecodeEncrypt(s) == Some(r) {
      TakeFieldCanonical(s);
      TakeFieldCanonical(TakeField(s).value.1);
    }
  }

  lemma DecryptWireExact(r: DecryptRequest, s: seq<byte>)
    ensures DecryptEncodable(r) && s == DecryptBytes(r) <==> DecodeDecrypt(s) == Some(r)
  {
    hide Field, TakeField;
    if DecryptEncodable(r) && s == DecryptBytes(r) {
      TakeFieldOfField(r.nonce, Field(r.aad) + (Field(r.tag) + r.ciphertext));
      TakeFieldOfField(r.aad, Field(r.tag) + r.ciphertext);
      TakeFieldOfField(r.tag, r.ciphertext);
    }
    if DecodeDecrypt(s) == Some(r) {
      TakeFieldCanonical(s);
      TakeFieldCanonical(TakeField(s).value.1);
      TakeFieldCanonical(TakeField(TakeField(s).value.1).value.1);
    }
  }

  /** Different requests have different bytes. */
  lemma WireIsInjective(e: EncryptRequest, e': EncryptRequest, d: DecryptRequest, d': DecryptRequest)
    requires EncryptEncodable(e) && EncryptEncodable(e') && DecryptEncodable(d) && DecryptEncodable(d')
    ensures EncryptBytes(e) == EncryptBytes(e') <==> e == e'
    ensures DecryptBytes(d) == DecryptBytes(d') <==> d == d'
  {
    EncryptWireExact(e, EncryptBytes(e));
    EncryptWireExact(e', EncryptBytes(e));
    DecryptWireExact(d, DecryptBytes(d));
    DecryptWireExact(d', DecryptBytes(d));
  }

  /** An encryption's reply: the tag as a field, then the ciphertext. */
  function EncryptReplyBytes(tag: seq<byte>, ciphertext: seq<byte>): seq<byte>
    requires |tag| == TAG_LEN
  {
    Field(tag) + ciphertext
  }

  function DecodeEncryptReply(s: seq<byte>): Option<(seq<byte>, seq<byte>)> {
    match TakeField(s)
    case None => None
    case Some((tag, ciphertext)) => if |tag| == TAG_LEN then Some((tag, ciphertext)) else None
  }

  lemma EncryptReplyExact(tag: seq<byte>, ciphertext: seq<byte>, s: seq<byte>)
    ensures |tag| == TAG_LEN && s == EncryptReplyBytes(tag, ciphertext)
            <==> DecodeEncryptReply(s) == Some((tag, ciphertext))
  {
    if |tag| == TAG_LEN {
      TakeFieldOfField(tag, ciphertext);
    }
    if DecodeEncryptReply(s) == Some((tag, ciphertext)) {
      TakeFieldCanonical(s);
    }
  }

  // ----- Layout -----

  lemma PrefixIsLittleEndian(a: byte, b: byte, c: byte, d: byte)
    ensures var n: nat := a as nat + 0x100 * b as nat + 0x1_0000 * c as nat + 0x100_0000 * d as nat;
            n < PREFIX_LIMIT && Prefix(n) == [a, b, c, d]
  {
    PrefixCanonical([a, b, c, d]);
  }

  lemma FieldAt(s: seq<byte>, rest: seq<byte>)
    requires |s| < PREFIX_LIMIT
    ensures var whole := Field(s) + rest;
            && |whole| == 4 + |s| + |rest|
            && whole[..4] == Prefix(|s|) && whole[4..4 + |s|] == s && whole[4 + |s|..] == rest
  {
    var whole := Field(s) + rest;
    assert whole[..4] == Prefix(|s|) && whole[4..4 + |s|] == s && whole[4 + |s|..] == rest;
  }

  /** Where everything lies in an encryption request: nonce, aad and plaintext, in that order. */
  lemma EncryptLayout(r: EncryptRequest)
    requires EncryptEncodable(r)
    ensures var s, n := EncryptBytes(r), |r.aad|;
            && |s| == 32 + n + |r.plaintext|
            && s[..4] == Prefix(24) && s[4..28] == r.nonce
            && s[28..][..4] == Prefix(n) && s[28..][4..4 + n] == r.aad && s[28..][4 + n..] == r.plaintext
  {
    FieldAt(r.nonce, Field(r.aad) + r.plaintext);
    FieldAt(r.aad, r.plaintext);
    hide Field, Prefix;
  }

  /** And in a decryption request: nonce, aad, tag and ciphertext. */
  lemma DecryptLayout(r: DecryptRequest)
    requires DecryptEncodable(r)
    ensures var s, n := DecryptBytes(r), |r.aad|;
            && |s| == 52 + n + |r.ciphertext|
            && s[..4] == Prefix(24) && s[4..28] == r.nonce
            && s[28..][..4] == Prefix(n) && s[28..][4..4 + n] == r.aad
            && s[28..][4 + n..][..4] == Prefix(16) && s[28..][4 + n..][4..20] == r.tag
            && s[28..][4 + n..][20..] == r.ciphertext
  {
    FieldAt(r.nonce, Field(r.aad) + (Field(r.tag) + r.ciphertext));
    FieldAt(r.aad, Field(r.tag) + r.ciphertext);
    FieldAt(r.tag, r.ciphertext);
    hide Field, Prefix;
  }

  // ----- Encoding in place -----

  /** Copies `src` to `out[at..]`, byte by byte. */
  method Put(out: array<byte>, at: nat, src: seq<byte>) returns (end: nat)
    requires at + |src| <= out.Length
    modifies out
    ensures end == at + |src|
    ensures out[..end] == old(out[..at]) + src
    ensures out[end..] == old(out[end..])
  {
    var i := 0;
    while i < |src|
      invariant i <= |src|
      invariant out[..at + i] == old(out[..at]) + src[..i]
      invariant out[at + i..] == old(out[at + i..])
    {
      out[at + i] := src[i];
      assert out[..at + i + 1] == out[..at + i] + [src[i]];
      i := i + 1;
    }
    end := at + |src|;
  }

  /** Fills `out` with an encrypt request; `None`, writing nothing, when a length does not fit its
      prefix or the request does not fit `out`. */
  method EncodeEncrypt(r: EncryptRequest, out: array<byte>) returns (len: Option<nat>)
    requires |r.nonce| == NONCE_LEN
    modifies out
    ensures len.Some? <==> EncryptEncodable(r) && |EncryptBytes(r)| <= out.Length
    ensures len.Some? ==> len.value <= out.Length && out[..len.value] == EncryptBytes(r)
    ensures len.None? ==> out[..] == old(out[..])
  {
    if |r.aad| >= PREFIX_LIMIT || 2 * PREFIX_LEN + NONCE_LEN + |r.aad| + |r.plaintext| > out.Length {
      return None;
    }
    var end := Put(out, 0, Field(r.nonce));
    end := Put(out, end, Field(r.aad));
    end := Put(out, end, r.plaintext);
    len := Some(end);
    assert out[..end] == EncryptBytes(r);
  }

  method EncodeDecrypt(r: DecryptRequest, out: array<byte>) returns (len: Option<nat>)
    requires |r.nonce| == NONCE_LEN && |r.tag| == TAG_LEN
    modifies out
    ensures len.Some? <==> DecryptEncodable(r) && |DecryptBytes(r)| <= out.Length
    ensures len.Some? ==> len.value <= out.Length && out[..len.value] == DecryptBytes(r)
    ensures len.None? ==> out[..] == old(out[..])
  {
    if |r.aad| >= PREFIX_LIMIT || 3 * PREFIX_LEN + NONCE_LEN + |r.aad| + TAG_LEN + |r.ciphertext| > out.Length {
      return None;
    }
    var end := Put(out, 0, Field(r.nonce));
    end := Put(out, end, Field(r.aad));
    end := Put(out, end, Field(r.tag));
    end := Put(out, end, r.ciphertext);
    len := Some(end);
    assert out[..end] == DecryptBytes(r);
  }
}
