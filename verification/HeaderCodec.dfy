/** The canonical encoding of an entry header, and the signature over it. Strings are byte sequences. */
module HeaderCodec {
  import opened ThreadTypes
  import opened Text

  const NONCE_SIZE := 24
  const PRIVATE_KEY_SIZE := 64
  const PUBLIC_KEY_SIZE := 32
  const WORD := 0x1_0000_0000

  type uint64 = x: int | 0 <= x < 0x1_0000_0000_0000_0000

  datatype Header = Header(threadId: seq<byte>, sequence: uint64, previous: seq<byte>, author: seq<byte>,
                           kind: seq<byte>, membershipEpoch: uint64, encryptionEpoch: uint64, nonce: seq<byte>)

  function Power(k: nat): nat {
    if k == 0 then 1 else 256 * Power(k - 1)
  }

  /** The low `k` bytes of `n`, most significant first. */
  function BigEndian(n: nat, k: nat): (r: seq<byte>)
    ensures |r| == k
  {
    if k == 0 then [] else BigEndian(n / 256, k - 1) + [n % 256]
  }

  function FromBigEndian(bs: seq<byte>): nat {
    if bs == [] then 0 else 256 * FromBigEndian(bs[..|bs| - 1]) + bs[|bs| - 1]
  }

  lemma {:induction false} BigEndianBack(n: nat, k: nat)
    requires n < Power(k)
    ensures FromBigEndian(BigEndian(n, k)) == n
  {
    if k > 0 {
      BigEndianBack(n / 256, k - 1);
      assert BigEndian(n, k)[..k - 1] == BigEndian(n / 256, k - 1);
    }
  }

  lemma Powers()
    ensures Power(4) == WORD && Power(8) == WORD * WORD
  {
    assert Power(3) == 0x100_0000;
    assert Power(6) == 0x1_0000_0000_0000;
  }

  /** What `put` appends: the length as an unsigned 32-bit number, which drops its high bits, then the bytes. */
  function Field(v: seq<byte>): seq<byte> {
    BigEndian(|v| % WORD, 4) + v
  }

  function EncodeTail(h: Header): seq<byte> {
    BigEndian(h.membershipEpoch, 8) + (BigEndian(h.encryptionEpoch, 8) + Field(h.nonce))
  }

  function EncodeMiddle(h: Header): seq<byte> {
    Field(h.previous) + (Field(h.author) + (Field(h.kind) + EncodeTail(h)))
  }

  function Encode(h: Header): seq<byte> {
    Field(h.threadId) + (BigEndian(h.sequence, 8) + EncodeMiddle(h))
  }

  lemma Assoc(a: seq<byte>, b: seq<byte>, c: seq<byte>)
    ensures (a + b) + c == a + (b + c)
  {
  }

  lemma Regroup(a: seq<byte>, b: seq<byte>, c: seq<byte>, d: seq<byte>, e: seq<byte>, f: seq<byte>, g: seq<byte>,
                i: seq<byte>)
    ensures [] + a + b + c + d + e + f + g + i == a + (b + (c + (d + (e + (f + (g + i))))))
  {
    assert [] + a == a;
    Assoc(a + b + c + d + e + f, g, i);
    Assoc(a + b + c + d + e, f, g + i);
    Assoc(a + b + c + d, e, f + (g + i));
    Assoc(a + b + c, d, e + (f + (g + i)));
    Assoc(a + b, c, d + (e + (f + (g + i))));
    Assoc(a, b, c + (d + (e + (f + (g + i)))));
  }

  method Put(buf: seq<byte>, v: seq<byte>) returns (r: seq<byte>)
    ensures r == buf + Field(v)
  {
    var n := |v| % WORD;
    r := buf + BigEndian(n, 4);
    r := r + v;
  }

  /** Only the nonce is checked; what is written is the encoding, field by field. */
  method Canonical(h: Header) returns (r: Option<seq<byte>>)
    ensures r == if |h.nonce| == NONCE_SIZE then Some(Encode(h)) else None
  {
    if |h.nonce| != NONCE_SIZE {
      return None;
    }
    var buf := Put([], h.threadId);
    buf := buf + BigEndian(h.sequence, 8);
    buf := Put(buf, h.previous);
    buf := Put(buf, h.author);
    buf := Put(buf, h.kind);
    buf := buf + BigEndian(h.membershipEpoch, 8);
    buf := buf + BigEndian(h.encryptionEpoch, 8);
    buf := Put(buf, h.nonce);
    Regroup(Field(h.threadId), BigEndian(h.sequence, 8), Field(h.previous), Field(h.author), Field(h.kind),
            BigEndian(h.membershipEpoch, 8), BigEndian(h.encryptionEpoch, 8), Field(h.nonce));
    return Some(buf);
  }

  // ---- the decoder ----

  function TakeField(bs: seq<byte>): Option<(seq<byte>, seq<byte>)> {
    if |bs| < 4 then None
    else
      var n := FromBigEndian(bs[..4]);
      if |bs| < 4 + n then None else Some((bs[4..4 + n], bs[4 + n..]))
  }

  function TakeNumber(bs: seq<byte>): Option<(nat, seq<byte>)> {
    if |bs| < 8 then None else Some((FromBigEndian(bs[..8]), bs[8..]))
  }

  datatype Middle = Middle(previous: seq<byte>, author: seq<byte>, kind: seq<byte>, rest: seq<byte>)

  function TakeMiddle(bs: seq<byte>): Option<Middle> {
    match TakeField(bs)
    case None => None
    case Some(previous) =>
      match TakeField(previous.1)
      case None => None
      case Some(author) =>
        match TakeField(author.1)
        case None => None
        case Some(kind) => Some(Middle(previous.0, author.0, kind.0, kind.1))
  }

  datatype Tail = Tail(membershipEpoch: nat, encryptionEpoch: nat, nonce: seq<byte>, rest: seq<byte>)

  function TakeTail(bs: seq<byte>): Option<Tail> {
    match TakeNumber(bs)
    case None => None
    case Some(membership) =>
      match TakeNumber(membership.1)
      case None => None
      case Some(encryption) =>
        match TakeField(encryption.1)
        case None => None
        case Some(nonce) => Some(Tail(membership.0, encryption.0, nonce.0, nonce.1))
  }

  /** Reads a header off the front of the signed bytes; what remains is the ciphertext. */
  function Decode(bs: seq<byte>): Option<(Header, seq<byte>)> {
    match TakeField(bs)
    case None => None
    case Some(id) =>
      match TakeNumber(id.1)
      case None => None
      case Some(number) =>
        match TakeMiddle(number.1)
        case None => None
        case Some(m) =>
          match TakeTail(m.rest)
          case None => None
          case Some(t) =>
            if number.0 < WORD * WORD && t.membershipEpoch < WORD * WORD && t.encryptionEpoch < WORD * WORD then
              Some((Header(id.0, number.0, m.previous, m.author, m.kind,
                           t.membershipEpoch, t.encryptionEpoch, t.nonce), t.rest))
            else None
  }

  // ---- decoding undoes encoding ----

  lemma TakeFieldBack(v: seq<byte>, rest: seq<byte>)
    ensures |v| < WORD ==> TakeField(Field(v) + rest) == Some((v, rest))
    ensures |v| >= WORD ==> TakeField(Field(v) + rest).Some? && TakeField(Field(v) + rest).value.0 != v
  {
    var bs := Field(v) + rest;
    var n := |v| % WORD;
    Powers();
    BigEndianBack(n, 4);
    assert bs[..4] == BigEndian(n, 4);
    assert bs[4..4 + |v|] == v && bs[4 + |v|..] == rest;
    assert |bs[4..4 + n]| == n;
  }

  lemma TakeNumberBack(n: uint64, rest: seq<byte>)
    ensures TakeNumber(BigEndian(n, 8) + rest) == Some((n, rest))
  {
    var bs := BigEndian(n, 8) + rest;
    Powers();
    BigEndianBack(n, 8);
    assert bs[..8] == BigEndian(n, 8) && bs[8..] == rest;
  }

  lemma TailBack(h: Header, c: seq<byte>)
    requires |h.nonce| == NONCE_SIZE
    ensures TakeTail(EncodeTail(h) + c) == Some(Tail(h.membershipEpoch, h.encryptionEpoch, h.nonce, c))
  {
    var afterEncryption := Field(h.nonce) + c;
    var afterMembership := BigEndian(h.encryptionEpoch, 8) + afterEncryption;
    assert EncodeTail(h) + c == BigEndian(h.membershipEpoch, 8) + afterMembership;
    TakeNumberBack(h.membershipEpoch, afterMembership);
    TakeNumberBack(h.encryptionEpoch, afterEncryption);
    TakeFieldBack(h.nonce, c);
  }

  /** The three byte fields in the middle are read back just when each is short. */
  lemma MiddleBack(h: Header, c: seq<byte>)
    ensures |h.previous| < WORD && |h.author| < WORD && |h.kind| < WORD ==>
              TakeMiddle(EncodeMiddle(h) + c) == Some(Middle(h.previous, h.author, h.kind, EncodeTail(h) + c))
    ensures var m := TakeMiddle(EncodeMiddle(h) + c);
            m.Some? && m.value.previous == h.previous && m.value.author == h.author && m.value.kind == h.kind ==>
              |h.previous| < WORD && |h.author| < WORD && |h.kind| < WORD
  {
    var afterKind := EncodeTail(h) + c;
    var afterAuthor := Field(h.kind) + afterKind;
    var afterPrevious := Field(h.author) + afterAuthor;
    assert EncodeMiddle(h) + c == Field(h.previous) + afterPrevious;
    TakeFieldBack(h.previous, afterPrevious);
    TakeFieldBack(h.author, afterAuthor);
    TakeFieldBack(h.kind, afterKind);
  }

  ghost predicate Short(h: Header) {
    |h.threadId| < WORD && |h.previous| < WORD && |h.author| < WORD && |h.kind| < WORD
  }

  /** The decoder undoes the encoder, whatever follows, exactly when every length fits in 32 bits. */
  lemma DecodeEncodeIff(h: Header, c: seq<byte>)
    requires |h.nonce| == NONCE_SIZE
    ensures Decode(Encode(h) + c) == Some((h, c)) <==> Short(h)
  {
    var afterNumber := EncodeMiddle(h) + c;
    var afterId := BigEndian(h.sequence, 8) + afterNumber;
    assert Encode(h) + c == Field(h.threadId) + afterId;
    TakeFieldBack(h.threadId, afterId);
    TakeNumberBack(h.sequence, afterNumber);
    MiddleBack(h, c);
    TailBack(h, c);
  }

  /** Injective and prefix-free together: the signed bytes fix both the header and the ciphertext. */
  lemma SignedBytesFixBoth(h1: Header, c1: seq<byte>, h2: Header, c2: seq<byte>)
    requires |h1.nonce| == NONCE_SIZE && |h2.nonce| == NONCE_SIZE && Short(h1) && Short(h2)
    requires Encode(h1) + c1 == Encode(h2) + c2
    ensures h1 == h2 && c1 == c2
  {
    DecodeEncodeIff(h1, c1);
    DecodeEncodeIff(h2, c2);
  }

  // ---- signatures ----

  datatype Scheme = Scheme(public: seq<byte> -> seq<byte>, sign: (seq<byte>, seq<byte>) -> seq<byte>,
                           verify: (seq<byte>, seq<byte>, seq<byte>) -> bool)

  datatype Outcome<T> = Ok(value: T) | BadKey | BadNonce

  method Sign(s: Scheme, private: seq<byte>, h: Header, c: seq<byte>) returns (r: Outcome<seq<byte>>)
    ensures r == Signature(s, private, h, c)
  {
    if |private| != PRIVATE_KEY_SIZE {
      return BadKey;
    }
    var aad := Canonical(h);
    if aad.None? {
      return BadNonce;
    }
    return Ok(s.sign(private, aad.value + c));
  }

  function Signature(s: Scheme, private: seq<byte>, h: Header, c: seq<byte>): Outcome<seq<byte>> {
    if |private| != PRIVATE_KEY_SIZE then BadKey
    else if |h.nonce| != NONCE_SIZE then BadNonce
    else Ok(s.sign(private, Encode(h) + c))
  }

  method Verify(s: Scheme, public: seq<byte>, h: Header, c: seq<byte>, signature: seq<byte>) returns (r: Outcome<bool>)
    ensures r == Verdict(s, public, h, c, signature)
  {
    if |public| != PUBLIC_KEY_SIZE {
      return BadKey;
    }
    var aad := Canonical(h);
    if aad.None? {
      return BadNonce;
    }
    return Ok(s.verify(public, aad.value + c, signature));
  }

  function Verdict(s: Scheme, public: seq<byte>, h: Header, c: seq<byte>, signature: seq<byte>): Outcome<bool> {
    if |public| != PUBLIC_KEY_SIZE then BadKey
    else if |h.nonce| != NONCE_SIZE then BadNonce
    else Ok(s.verify(public, Encode(h) + c, signature))
  }

  /** Signing and verifying refuse a key of the wrong size first and then a nonce of the wrong size, and nothing
      else. */
  lemma Refusals(s: Scheme, key: seq<byte>, h: Header, c: seq<byte>, signature: seq<byte>)
    ensures Signature(s, key, h, c) == BadKey <==> |key| != 64
    ensures Signature(s, key, h, c) == BadNonce <==> |key| == 64 && |h.nonce| != 24
    ensures Verdict(s, key, h, c, signature) == BadKey <==> |key| != 32
    ensures Verdict(s, key, h, c, signature) == BadNonce <==> |key| == 32 && |h.nonce| != 24
  {
  }

  /** A signature made for one header and ciphertext is accepted for another pair exactly when the pairs are
      equal, or the scheme itself accepts it for different bytes. */
  lemma SignatureBindsBoth(s: Scheme, private: seq<byte>, h1: Header, c1: seq<byte>, h2: Header, c2: seq<byte>)
    requires |private| == PRIVATE_KEY_SIZE && |s.public(private)| == PUBLIC_KEY_SIZE
    requires forall m :: s.verify(s.public(private), m, s.sign(private, m))
    requires |h1.nonce| == NONCE_SIZE && |h2.nonce| == NONCE_SIZE && Short(h1) && Short(h2)
    ensures Verdict(s, s.public(private), h2, c2, Signature(s, private, h1, c1).value) == Ok(true) <==>
              (h1 == h2 && c1 == c2)
              || (Encode(h1) + c1 != Encode(h2) + c2
                  && s.verify(s.public(private), Encode(h2) + c2, s.sign(private, Encode(h1) + c1)))
  {
    if Encode(h1) + c1 == Encode(h2) + c2 {
      SignedBytesFixBoth(h1, c1, h2, c2);
    }
  }
}
