/** The printed form of a recovery handle and its parser. */
module RecoveryHandle {
  import opened ThreadTypes
  import opened Text
  import Base64Url

  type Digest = d: seq<byte> | |d| == 32 witness seq(32, _ => 0)

  datatype Handle = Handle(threadId: string, secret: seq<byte>, version: nat)

  datatype Parsed = Ok(handle: Handle) | BadFormat | BadChecksum | ChecksumMismatch | BadSecret

  const PREFIX := "moltmesh-recovery-v1"

  predicate Valid(h: Handle) {
    h.version == 1 && h.threadId != "" && |h.secret| == 32
  }

  function Body(h: Handle): string {
    PREFIX + ":" + (h.threadId + ":" + Base64Url.Encode(h.secret))
  }

  /** Four bytes of the digest of the body, in base64. */
  function Checksum(sha: string -> Digest, body: string): string {
    Base64Url.Encode(sha(body)[..4])
  }

  function String(sha: string -> Digest, h: Handle): Option<string> {
    if !Valid(h) then None else Some(Body(h) + ":" + Checksum(sha, Body(h)))
  }

  function Join(parts: seq<string>): string
    requires |parts| >= 1
  {
    if |parts| == 1 then parts[0] else parts[0] + ":" + Join(parts[1..])
  }

  function Parse(sha: string -> Digest, encoded: string): Parsed {
    var parts := Split(encoded);
    if |parts| != 4 || parts[0] != PREFIX || parts[1] == "" then BadFormat
    else
      var body := Join(parts[..3]);
      var checksum := Base64Url.Decode(parts[3]);
      if checksum.None? || |checksum.value| != 4 then BadChecksum
      else if checksum.value != sha(body)[..4] then ChecksumMismatch
      else
        var secret := Base64Url.Decode(parts[2]);
        if secret.None? || |secret.value| != 32 then BadSecret else Ok(Handle(parts[1], secret.value, 1))
  }

  lemma PrefixColonFree()
    ensures ColonFree(PREFIX)
  {
  }

  // ---- the round trip ----

  lemma SplitPrinted(id: string, secret: string, sum: string)
    requires ColonFree(secret) && ColonFree(sum)
    ensures ColonFree(id) ==> Split(PREFIX + ":" + (id + ":" + secret) + ":" + sum) == [PREFIX, id, secret, sum]
    ensures !ColonFree(id) ==> |Split(PREFIX + ":" + (id + ":" + secret) + ":" + sum)| > 4
  {
    var tail := secret + ":" + sum;
    assert PREFIX + ":" + (id + ":" + secret) + ":" + sum == PREFIX + ":" + (id + ":" + tail);
    PrefixColonFree();
    SplitCons(PREFIX, id + ":" + tail);
    SplitCons(secret, sum);
    SplitWhole(sum);
    SplitWhole(id);
    SplitConcat(id, tail);
    if ColonFree(id) {
      SplitCons(id, tail);
    }
  }

  /** The printed form at its colons: the prefix, the thread ID, the secret and the checksum of what stands before
      it. */
  lemma PrintedPieces(sha: string -> Digest, h: Handle)
    requires Valid(h)
    ensures var body := PREFIX + ":" + h.threadId + ":" + Base64Url.Encode(h.secret);
            Split(String(sha, h).value) ==
              ["moltmesh-recovery-v1"] + Split(h.threadId) + [Base64Url.Encode(h.secret)]
              + [Base64Url.Encode(sha(body)[..4])]
  {
    var body := PREFIX + ":" + h.threadId + ":" + Base64Url.Encode(h.secret);
    assert body == Body(h);
    Base64Url.RoundTrip(h.secret);
    Base64Url.RoundTrip(sha(body)[..4]);
    PrefixColonFree();
    SplitConcat(body, Checksum(sha, body));
    SplitConcat(PREFIX + ":" + h.threadId, Base64Url.Encode(h.secret));
    SplitConcat(PREFIX, h.threadId);
    SplitWhole(PREFIX);
    SplitWhole(Base64Url.Encode(h.secret));
    SplitWhole(Checksum(sha, body));
  }

  lemma JoinThree(a: string, b: string, c: string)
    ensures Join([a, b, c]) == a + ":" + (b + ":" + c)
  {
    assert [a, b, c][1..] == [b, c];
    assert [b, c][1..] == [c];
    assert Join([b, c]) == b + ":" + c;
  }

  /** A printed handle parses back to itself exactly when its thread ID holds no colon. */
  lemma RoundTripIff(sha: string -> Digest, h: Handle)
    requires Valid(h)
    ensures Parse(sha, String(sha, h).value) == Ok(h) <==> ColonFree(h.threadId)
  {
    var secret, sum := Base64Url.Encode(h.secret), Checksum(sha, Body(h));
    Base64Url.RoundTrip(h.secret);
    Base64Url.RoundTrip(sha(Body(h))[..4]);
    SplitPrinted(h.threadId, secret, sum);
    if ColonFree(h.threadId) {
      assert Split(String(sha, h).value)[..3] == [PREFIX, h.threadId, secret];
      JoinThree(PREFIX, h.threadId, secret);
    }
  }

  /** Whatever the parser accepts is a valid handle whose own printed form parses back to it. */
  lemma ParsedPrints(sha: string -> Digest, encoded: string)
    requires Parse(sha, encoded).Ok?
    ensures var h := Parse(sha, encoded).handle;
            Valid(h) && Parse(sha, String(sha, h).value) == Ok(h)
  {
    SplitColonFree(encoded);
    RoundTripIff(sha, Parse(sha, encoded).handle);
  }

  /** A text parses if and only if it has four pieces: the prefix, a thread ID, a secret of 32 bytes, and the first four
      bytes of the digest of everything before the last colon. */
  lemma ParseIff(sha: string -> Digest, s: string, h: Handle)
    ensures Parse(sha, s) == Ok(h) <==>
              var parts := Split(s);
              && |parts| == 4 && parts[0] == "moltmesh-recovery-v1" && parts[1] != ""
              && |s| > |parts[3]| && Base64Url.Decode(parts[3]) == Some(sha(s[..|s| - |parts[3]| - 1])[..4])
              && h == Handle(parts[1], h.secret, 1) && |h.secret| == 32 && Base64Url.Decode(parts[2]) == Some(h.secret)
  {
    var parts := Split(s);
    if |parts| == 4 {
      SplitJoins(s);
      JoinLast(parts);
      var body := Join(parts[..3]);
      assert s == body + ":" + parts[3];
      assert s[..|s| - |parts[3]| - 1] == body;
    }
  }

  lemma {:induction false} SplitJoins(s: string)
    ensures Join(Split(s)) == s
  {
    if s != "" {
      SplitJoins(s[1..]);
      var rest := Split(s[1..]);
      if s[0] == ':' {
        assert Split(s)[1..] == rest;
      } else {
        assert Split(s)[1..] == rest[1..];
      }
    }
  }

  lemma JoinLast(parts: seq<string>)
    requires |parts| == 4
    ensures Join(parts) == Join(parts[..3]) + ":" + parts[3]
  {
    var a, b, c, d := parts[0], parts[1], parts[2], parts[3];
    assert parts == [a, b, c, d] && parts[..3] == [a, b, c] && parts[1..] == [b, c, d];
    JoinThree(a, b, c);
    JoinThree(b, c, d);
  }

  lemma EqualEnds(a: string, b: string, c: string, d: string)
    requires a + b == c + d && |b| == |d|
    ensures a == c && b == d
  {
    assert (a + b)[..|a|] == a && (c + d)[..|a|] == c;
    assert (a + b)[|a|..] == b && (c + d)[|a|..] == d;
  }

  lemma SamePrefix(p: string, a: string, b: string)
    requires p + a == p + b
    ensures a == b
  {
    assert (p + a)[|p|..] == a && (p + b)[|p|..] == b;
  }

  /** Printing loses nothing, even for a thread ID with colons: the two base64 parts have fixed lengths. */
  lemma PrintedInjective(sha: string -> Digest, g: Handle, h: Handle)
    requires Valid(g) && Valid(h) && String(sha, g) == String(sha, h)
    ensures g == h
  {
    Base64Url.EncodedLength(g.secret);
    Base64Url.EncodedLength(h.secret);
    Base64Url.EncodedLength(sha(Body(g))[..4]);
    Base64Url.EncodedLength(sha(Body(h))[..4]);
    EqualEnds(Body(g) + ":", Checksum(sha, Body(g)), Body(h) + ":", Checksum(sha, Body(h)));
    EqualEnds(Body(g), ":", Body(h), ":");
    SamePrefix(PREFIX + ":", g.threadId + ":" + Base64Url.Encode(g.secret),
               h.threadId + ":" + Base64Url.Encode(h.secret));
    EqualEnds(g.threadId + ":", Base64Url.Encode(g.secret), h.threadId + ":", Base64Url.Encode(h.secret));
    EqualEnds(g.threadId, ":", h.threadId, ":");
    Base64Url.RoundTrip(g.secret);
    Base64Url.RoundTrip(h.secret);
  }
}
