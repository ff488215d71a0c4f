/**
 The framed authenticated stream that artifacts are stored in: writer, reader, and what an
 ideal authenticated cipher makes of them.
 Models src/wbcz/m11_reports.py, ChunkedAeadArtifactCipher.

 AES-GCM is a pair of functions that is ideal for a set of honestly written streams: it
 opens exactly what those streams sealed. SHA-256 is an injective digest. The JSON texts of
 header and footer are codecs with a left inverse; associated data is the tuple that its
 canonical JSON encodes.
 */
module ArtifactCipher {
  import opened Common

  type bytes = seq<byte>

  const U32_SIZE := 0x1_0000_0000
  const MAGIC: bytes := [0x4D, 0x31, 0x31, 0x41, 0x45, 0x41, 0x44, 0x31, 0x0A]
  const TAG_BYTES := 16
  const ARTIFACT_ENCRYPTION_FORMAT := "M11_CHUNKED_AES256_GCM_V1"

  datatype Digest = Sha256OfBytes(preimage: bytes) | Sha256OfText(text: string)

  datatype Header = Header(format: string, keyVersion: string, chunkBytes: nat, baseNonce: bytes, contextDigest: Digest)

  datatype Footer = Footer(byteSize: nat, plaintextDigest: Digest, chunkCount: nat)

  datatype Aad = ChunkAad(header: Header, index: nat, context: string) | FooterAad(header: Header, context: string)

  datatype Crypto = Crypto(
    seal: (bytes, bytes, Aad, bytes) -> bytes,          // key, nonce, associated data, plaintext
    open: (bytes, bytes, Aad, bytes) -> Option<bytes>,
    keyOf: string -> Option<bytes>,
    headerText: Header -> bytes, parseHeader: bytes -> Option<Header>,
    footerText: Footer -> bytes, parseFooter: bytes -> Option<Footer>)

  datatype CipherError =
    | KeyUnavailable | KeyNot32Bytes | LengthOverflow | NonceOverflow
    | MagicMismatch | HeaderMissing | HeaderInvalid | FormatMismatch | KeyVersionMissing | ContextMismatch
    | FrameTruncated | AuthenticationFailed | FooterMissing | FooterTruncated | FooterInvalid | SummaryMismatch

  // ---------- Four-byte numbers and nonces ----------

  /** struct.pack(">I", n) and n.to_bytes(4, "big"), for n below 2^32. */
  function U32(n: nat): (b: bytes)
    ensures |b| == 4
  {
    [(n / 256 / 256 / 256 % 256) as byte, (n / 256 / 256 % 256) as byte, (n / 256 % 256) as byte, (n % 256) as byte]
  }

  function FromU32(b: bytes): (n: nat)
    requires |b| == 4
    ensures n < U32_SIZE
  {
    ((b[0] as nat * 256 + b[1] as nat) * 256 + b[2] as nat) * 256 + b[3] as nat
  }

  lemma U32RoundTrip(n: nat)
    requires n < U32_SIZE
    ensures FromU32(U32(n)) == n
  {
  }

  lemma U32Print(b: bytes)
    requires |b| == 4
    ensures U32(FromU32(b)) == b
  {
    var q1 := b[0] as nat * 256 + b[1] as nat;
    var q2 := q1 * 256 + b[2] as nat;
    assert FromU32(b) / 256 == q2 && q2 / 256 == q1 && q1 / 256 == b[0] as nat;
  }

  /** Most significant byte first. */
  lemma U32IsBigEndian(n: nat)
    requires n < U32_SIZE
    ensures var b := U32(n);
            n == b[0] as nat * 0x100_0000 + b[1] as nat * 0x1_0000 + b[2] as nat * 0x100 + b[3] as nat
  {
    U32RoundTrip(n);
  }

  function Nonce(base: bytes, index: nat): bytes {
    base + U32(index)
  }

  /** Section 8 of NIST SP 800-38D: all nonces of one stream, footer included, are pairwise distinct. */
  lemma NoncesAreDistinct(base: bytes, i: nat, j: nat)
    requires i < U32_SIZE && j < U32_SIZE && Nonce(base, i) == Nonce(base, j)
    ensures i == j
  {
    assert Nonce(base, i)[|base|..] == U32(i) && Nonce(base, j)[|base|..] == U32(j);
    U32RoundTrip(i);
    U32RoundTrip(j);
  }

  // ---------- An honestly written stream ----------

  datatype Stream = Stream(key: bytes, header: Header, context: string, plain: bytes)

  function Take(plain: bytes, n: nat): bytes {
    if |plain| <= n then plain else plain[..n]
  }

  function Drop(plain: bytes, n: nat): bytes {
    if |plain| <= n then [] else plain[n..]
  }

  /** The results of reading n bytes at a time until the end. */
  function Chunks(plain: bytes, n: nat): seq<bytes>
    decreases |plain|
  {
    if plain == [] || n == 0 then [] else [Take(plain, n)] + Chunks(Drop(plain, n), n)
  }

  function Join(chunks: seq<bytes>): bytes {
    if chunks == [] then [] else Join(chunks[..|chunks| - 1]) + chunks[|chunks| - 1]
  }

  lemma {:induction false} JoinConcat(a: seq<bytes>, b: seq<bytes>)
    ensures Join(a + b) == Join(a) + Join(b)
  {
    if b == [] {
      assert a + b == a;
    } else {
      JoinConcat(a, b[..|b| - 1]);
      assert (a + b)[..|a + b| - 1] == a + b[..|b| - 1];
    }
  }

  lemma TakeAndDrop(plain: bytes, n: nat)
    ensures Take(plain, n) + Drop(plain, n) == plain && (0 < n ==> (Take(plain, n) == [] <==> plain == []))
  {
  }

  lemma JoinOfOne(chunk: bytes)
    ensures Join([chunk]) == chunk
  {
    assert [chunk][..0] == [];
  }

  lemma {:induction false} JoinOfChunks(plain: bytes, n: nat)
    requires 0 < n
    ensures Join(Chunks(plain, n)) == plain
    decreases |plain|
  {
    if plain != [] {
      JoinOfChunks(Drop(plain, n), n);
      hide Take, Drop, Join;
      JoinConcat([Take(plain, n)], Chunks(Drop(plain, n), n));
      JoinOfOne(Take(plain, n));
      TakeAndDrop(plain, n);
    } else {
      assert Chunks(plain, n) == [];
    }
  }

  /** What lies from position at on, at most n bytes of it. */
  function Slice(plain: bytes, at: nat, n: nat): bytes {
    Take(Drop(plain, at), n)
  }

  /** Chunk i holds the n bytes from i * n on; only the last one may be shorter, and none is empty. */
  lemma {:induction false} ChunkAt(plain: bytes, n: nat, i: nat)
    requires 0 < n
    ensures 0 <= i * n && (i < |Chunks(plain, n)| <==> i * n < |plain|)
    ensures i < |Chunks(plain, n)| ==> Chunks(plain, n)[i] == Slice(plain, i * n, n)
    decreases i
  {
    if i > 0 {
      ChunkAt(Drop(plain, n), n, i - 1);
      assert i * n == (i - 1) * n + n;
      hide Slice, Take;
      SliceOfDrop(plain, (i - 1) * n, n);
    } else {
      assert i * n == 0 && Drop(plain, 0) == plain;
    }
  }

  lemma SliceOfDrop(plain: bytes, at: nat, n: nat)
    ensures Slice(Drop(plain, n), at, n) == Slice(plain, at + n, n)
    ensures |Drop(plain, n)| == if |plain| <= n then 0 else |plain| - n
  {
    assert Drop(Drop(plain, n), at) == Drop(plain, at + n);
  }

  function ChunksOf(s: Stream): seq<bytes> {
    Chunks(s.plain, s.header.chunkBytes)
  }

  function SealedChunk(c: Crypto, s: Stream, i: nat): bytes
    requires i < |ChunksOf(s)|
  {
    c.seal(s.key, Nonce(s.header.baseNonce, i), ChunkAad(s.header, i, s.context), ChunksOf(s)[i])
  }

  function Summary(s: Stream): Footer {
    Footer(|s.plain|, Sha256OfBytes(s.plain), |ChunksOf(s)|)
  }

  function SealedFooter(c: Crypto, s: Stream): bytes {
    c.seal(s.key, Nonce(s.header.baseNonce, |ChunksOf(s)|), FooterAad(s.header, s.context), c.footerText(Summary(s)))
  }

  function Frame(sealed: bytes): bytes {
    U32(|sealed|) + sealed
  }

  /** The frames from chunk i on, the zero marker and the footer. */
  function FramesFrom(c: Crypto, s: Stream, i: nat): bytes
    requires i <= |ChunksOf(s)|
    decreases |ChunksOf(s)| - i
  {
    if i == |ChunksOf(s)| then U32(0) + Frame(SealedFooter(c, s))
    else Frame(SealedChunk(c, s, i)) + FramesFrom(c, s, i + 1)
  }

  function Head(headerText: bytes): bytes {
    MAGIC + Frame(headerText)
  }

  function Encrypted(c: Crypto, s: Stream): bytes {
    Head(c.headerText(s.header)) + FramesFrom(c, s, 0)
  }

  /** Every length and index of the stream fits its four bytes. */
  ghost predicate Fits(c: Crypto, s: Stream) {
    && |c.headerText(s.header)| < U32_SIZE && |ChunksOf(s)| < U32_SIZE && |SealedFooter(c, s)| < U32_SIZE
    && forall i :: 0 <= i < |ChunksOf(s)| ==> |SealedChunk(c, s, i)| < U32_SIZE
  }

  /** The header a cipher of this key version and chunk size writes. */
  function HeaderFor(keyVersion: string, chunkBytes: nat, baseNonce: bytes, context: string): Header {
    Header(ARTIFACT_ENCRYPTION_FORMAT, keyVersion, chunkBytes, baseNonce, Sha256OfText(context))
  }

  /** A stream as encrypt_stream makes it. */
  ghost predicate Honest(c: Crypto, s: Stream) {
    && 0 < s.header.chunkBytes && Fits(c, s) && |s.key| == 32 && c.keyOf(s.header.keyVersion) == Some(s.key)
    && s.header.format == ARTIFACT_ENCRYPTION_FORMAT && s.header.contextDigest == Sha256OfText(s.context)
  }

  // ---------- The ideal cipher ----------

  ghost predicate SealedIn(c: Crypto, s: Stream, key: bytes, nonce: bytes, aad: Aad, plain: bytes) {
    && key == s.key && aad.header == s.header && aad.context == s.context
    && match aad
       case ChunkAad(_, i, _) => i < |ChunksOf(s)| && nonce == Nonce(s.header.baseNonce, i) && plain == ChunksOf(s)[i]
       case FooterAad(_, _) => nonce == Nonce(s.header.baseNonce, |ChunksOf(s)|) && plain == c.footerText(Summary(s))
  }

  /** The cipher opens exactly what the streams sealed, and the JSON codecs read back what they print. */
  ghost predicate Ideal(c: Crypto, streams: set<Stream>) {
    && (forall k, n, a, x, p {:trigger c.open(k, n, a, x), c.seal(k, n, a, p)} ::
          c.open(k, n, a, x) == Some(p) <==>
            (exists s :: s in streams && SealedIn(c, s, k, n, a, p)) && x == c.seal(k, n, a, p))
    && (forall k, n, a, p :: |c.seal(k, n, a, p)| == |p| + TAG_BYTES)
    && (forall h :: c.parseHeader(c.headerText(h)) == Some(h))
    && (forall f :: c.parseFooter(c.footerText(f)) == Some(f))
  }

  /** The 64-bit base nonce is fresh for every stream, so no header occurs twice. */
  ghost predicate FreshHeaders(streams: set<Stream>) {
    forall s, t :: s in streams && t in streams && s.header == t.header ==> s == t
  }

  // ---------- Reading, as a function of the bytes ----------

  /** What was written to the target, and how the call ended. */
  datatype Reading = Reading(written: bytes, outcome: Result<(nat, Digest), CipherError>)

  function ReadFooter(c: Crypto, key: bytes, header: Header, context: string, input: bytes, index: nat,
                      soFar: bytes): Reading
  {
    if |input| < 4 then Reading(soFar, Err(FooterMissing))
    else
      var n := FromU32(input[..4]);
      if |input| - 4 < n then Reading(soFar, Err(FooterTruncated))
      else if index >= U32_SIZE then Reading(soFar, Err(NonceOverflow))
      else match c.open(key, Nonce(header.baseNonce, index), FooterAad(header, context), input[4..4 + n])
        case None => Reading(soFar, Err(AuthenticationFailed))
        case Some(text) =>
          match c.parseFooter(text)
          case None => Reading(soFar, Err(FooterInvalid))
          case Some(footer) =>
            if footer != Footer(|soFar|, Sha256OfBytes(soFar), index) then Reading(soFar, Err(SummaryMismatch))
            else Reading(soFar, Ok((|soFar|, Sha256OfBytes(soFar))))
  }

  function ReadFrames(c: Crypto, key: bytes, header: Header, context: string, input: bytes, index: nat,
                      soFar: bytes): Reading
    decreases |input|
  {
    if |input| < 4 then Reading(soFar, Err(FrameTruncated))
    else
      var n := FromU32(input[..4]);
      if n == 0 then ReadFooter(c, key, header, context, input[4..], index, soFar)
      else if |input| - 4 < n then Reading(soFar, Err(FrameTruncated))
      else if index >= U32_SIZE then Reading(soFar, Err(NonceOverflow))
      else match c.open(key, Nonce(header.baseNonce, index), ChunkAad(header, index, context), input[4..4 + n])
        case None => Reading(soFar, Err(AuthenticationFailed))
        case Some(plain) => ReadFrames(c, key, header, context, input[4 + n..], index + 1, soFar + plain)
  }

  /** The checks on a parsed header, and the key it names. */
  function OpenHeader(c: Crypto, header: Header, context: string): Result<bytes, CipherError> {
    if header.format != ARTIFACT_ENCRYPTION_FORMAT then Err(FormatMismatch)
    else if header.keyVersion == "" then Err(KeyVersionMissing)
    else if header.contextDigest != Sha256OfText(context) then Err(ContextMismatch)
    else match c.keyOf(header.keyVersion)
      case None => Err(KeyUnavailable)
      case Some(key) => if |key| != 32 then Err(KeyNot32Bytes) else Ok(key)
  }

  function Decrypted(c: Crypto, input: bytes, context: string): Reading {
    if Take(input, |MAGIC|) != MAGIC then Reading([], Err(MagicMismatch))
    else
      var afterMagic := input[|MAGIC|..];
      if |afterMagic| < 4 then Reading([], Err(HeaderMissing))
      else
        var n := FromU32(afterMagic[..4]);
        match c.parseHeader(Take(afterMagic[4..], n))
        case None => Reading([], Err(HeaderInvalid))
        case Some(header) =>
          match OpenHeader(c, header, context)
          case Err(error) => Reading([], Err(error))
          case Ok(key) => ReadFrames(c, key, header, context, Drop(afterMagic[4..], n), 0, [])
  }

  // ---------- Round trip ----------

  lemma FrameParts(sealed: bytes, tail: bytes)
    requires |sealed| < U32_SIZE
    ensures var input := Frame(sealed) + tail;
            |input| >= 4 && FromU32(input[..4]) == |sealed| && |input| - 4 >= |sealed|
            && input[4..4 + |sealed|] == sealed && input[4 + |sealed|..] == tail
  {
    var input := Frame(sealed) + tail;
    assert input[..4] == U32(|sealed|);
    U32RoundTrip(|sealed|);
  }

  lemma HonestSealOpens(c: Crypto, streams: set<Stream>, s: Stream, nonce: bytes, aad: Aad, plain: bytes)
    requires Ideal(c, streams) && s in streams && SealedIn(c, s, s.key, nonce, aad, plain)
    ensures c.open(s.key, nonce, aad, c.seal(s.key, nonce, aad, plain)) == Some(plain)
  {
  }

  lemma ReadsHonestFooter(c: Crypto, streams: set<Stream>, s: Stream, trailing: bytes)
    requires Ideal(c, streams) && s in streams && Honest(c, s)
    ensures ReadFooter(c, s.key, s.header, s.context, Frame(SealedFooter(c, s)) + trailing, |ChunksOf(s)|, s.plain)
            == Reading(s.plain, Ok((|s.plain|, Sha256OfBytes(s.plain))))
  {
    FrameParts(SealedFooter(c, s), trailing);
    HonestSealOpens(c, streams, s, Nonce(s.header.baseNonce, |ChunksOf(s)|), FooterAad(s.header, s.context),
                    c.footerText(Summary(s)));
  }

  lemma {:induction false} ReadsHonestFrames(c: Crypto, streams: set<Stream>, s: Stream, i: nat, trailing: bytes)
    requires Ideal(c, streams) && s in streams && Honest(c, s) && i <= |ChunksOf(s)|
    ensures ReadFrames(c, s.key, s.header, s.context, FramesFrom(c, s, i) + trailing, i, Join(ChunksOf(s)[..i]))
            == Reading(s.plain, Ok((|s.plain|, Sha256OfBytes(s.plain))))
    decreases |ChunksOf(s)| - i
  {
    hide Ideal, U32, FromU32, Chunks, Frame, Nonce, SealedFooter;
    var chunks := ChunksOf(s);
    var input := FramesFrom(c, s, i) + trailing;
    if i == |chunks| {
      JoinOfChunks(s.plain, s.header.chunkBytes);
      assert chunks[..i] == chunks;
      U32RoundTrip(0);
      assert input[..4] == U32(0);
      assert input[4..] == Frame(SealedFooter(c, s)) + trailing;
      ReadsHonestFooter(c, streams, s, trailing);
    } else {
      var sealed := SealedChunk(c, s, i);
      var tail := FramesFrom(c, s, i + 1) + trailing;
      assert input == Frame(sealed) + tail;
      FrameParts(sealed, tail);
      SealsAreLonger(c, streams, s.key, Nonce(s.header.baseNonce, i), ChunkAad(s.header, i, s.context), chunks[i]);
      HonestSealOpens(c, streams, s, Nonce(s.header.baseNonce, i), ChunkAad(s.header, i, s.context), chunks[i]);
      ReadsHonestFrames(c, streams, s, i + 1, trailing);
      assert chunks[..i + 1][..i] == chunks[..i];
    }
  }

  lemma SealsAreLonger(c: Crypto, streams: set<Stream>, key: bytes, nonce: bytes, aad: Aad, plain: bytes)
    requires Ideal(c, streams)
    ensures |c.seal(key, nonce, aad, plain)| == |plain| + TAG_BYTES
  {
  }

  lemma TakeAndDropConcat(a: bytes, b: bytes)
    ensures Take(a + b, |a|) == a && Drop(a + b, |a|) == b
  {
  }

  lemma HeadParts(c: Crypto, s: Stream, tail: bytes)
    requires |c.headerText(s.header)| < U32_SIZE
    ensures var input := Head(c.headerText(s.header)) + tail;
            && Take(input, |MAGIC|) == MAGIC && |input| >= |MAGIC| + 4
            && FromU32(input[|MAGIC|..][..4]) == |c.headerText(s.header)|
            && Take(input[|MAGIC|..][4..], |c.headerText(s.header)|) == c.headerText(s.header)
            && Drop(input[|MAGIC|..][4..], |c.headerText(s.header)|) == tail
  {
    hide U32, FromU32, Take, Drop;
    var text := c.headerText(s.header);
    var input := Head(text) + tail;
    assert input == MAGIC + (Frame(text) + tail);
    TakeAndDropConcat(MAGIC, Frame(text) + tail);
    assert input[|MAGIC|..] == Frame(text) + tail;
    FrameParts(text, tail);
    assert (Frame(text) + tail)[4..] == text + tail;
    TakeAndDropConcat(text, tail);
  }

  /**
   Reading back an honestly written stream, whatever follows it, gives its plaintext, length
   and digest; the reader's own key version and chunk size play no part. The one stream it
   refuses is one written under the empty key version.
   */
  lemma RoundTrip(c: Crypto, streams: set<Stream>, s: Stream, trailing: bytes)
    requires Ideal(c, streams) && s in streams && Honest(c, s)
    ensures Decrypted(c, Encrypted(c, s) + trailing, s.context) ==
            if s.header.keyVersion != "" then Reading(s.plain, Ok((|s.plain|, Sha256OfBytes(s.plain))))
            else Reading([], Err(KeyVersionMissing))
  {
    var tail := FramesFrom(c, s, 0) + trailing;
    assert Encrypted(c, s) + trailing == Head(c.headerText(s.header)) + tail;
    HeadParts(c, s, tail);
    assert ChunksOf(s)[..0] == [];
    ReadsHonestFrames(c, streams, s, 0, trailing);
  }

  /** The zero marker is not the length of any chunk frame. */
  lemma MarkerNeverCollides(c: Crypto, streams: set<Stream>, s: Stream, i: nat)
    requires Ideal(c, streams) && Honest(c, s) && i < |ChunksOf(s)|
    ensures Frame(SealedChunk(c, s, i))[..4] != U32(0)
  {
    FrameParts(SealedChunk(c, s, i), []);
    assert Frame(SealedChunk(c, s, i)) + [] == Frame(SealedChunk(c, s, i));
    U32RoundTrip(0);
  }

  // ---------- Authenticity ----------

  lemma OpenedWasSealed(c: Crypto, streams: set<Stream>, key: bytes, nonce: bytes, aad: Aad, x: bytes)
    returns (s: Stream)
    requires Ideal(c, streams) && c.open(key, nonce, aad, x).Some?
    ensures s in streams && SealedIn(c, s, key, nonce, aad, c.open(key, nonce, aad, x).value)
    ensures x == c.seal(key, nonce, aad, c.open(key, nonce, aad, x).value)
  {
    var p := c.open(key, nonce, aad, x).value;
    var y := c.seal(key, nonce, aad, p);
    s :| s in streams && SealedIn(c, s, key, nonce, aad, p);
  }

  /** Frames that read to the end are, byte for byte, the rest of the one stream with that header. */
  lemma {:induction false} ReadFramesAreHonest(c: Crypto, streams: set<Stream>, key: bytes, header: Header,
                                               context: string, input: bytes, index: nat, soFar: bytes)
    returns (s: Stream, trailing: bytes)
    requires Ideal(c, streams) && FreshHeaders(streams) && (forall t :: t in streams ==> Honest(c, t))
    requires ReadFrames(c, key, header, context, input, index, soFar).outcome.Ok?
    ensures s in streams && s.header == header && s.context == context && s.key == key
    ensures index <= |ChunksOf(s)| && input == FramesFrom(c, s, index) + trailing
    ensures ReadFrames(c, key, header, context, input, index, soFar).written == s.plain
    decreases |input|
  {
    hide Ideal, U32, FromU32, Honest, Chunks, FramesFrom, ReadFooter;
    var n := FromU32(input[..4]);
    U32Print(input[..4]);
    if n == 0 {
      s, trailing := ReadFooterIsHonest(c, streams, key, header, context, input[4..], index, soFar);
      LastFrames(c, s);
      assert input == input[..4] + input[4..];
    } else {
      var x := input[4..4 + n];
      var aad := ChunkAad(header, index, context);
      var nonce := Nonce(header.baseNonce, index);
      var t := OpenedWasSealed(c, streams, key, nonce, aad, x);
      var plain := c.open(key, nonce, aad, x).value;
      s, trailing := ReadFramesAreHonest(c, streams, key, header, context, input[4 + n..], index + 1, soFar + plain);
      assert t == s;
      assert x == SealedChunk(c, s, index);
      NextFrame(c, s, index);
      FrameOf(input, n);
      assert input == (Frame(x) + FramesFrom(c, s, index + 1)) + trailing;
    }
  }

  lemma LastFrames(c: Crypto, s: Stream)
    ensures FramesFrom(c, s, |ChunksOf(s)|) == U32(0) + Frame(SealedFooter(c, s))
  {
  }

  lemma NextFrame(c: Crypto, s: Stream, i: nat)
    requires i < |ChunksOf(s)|
    ensures FramesFrom(c, s, i) == Frame(SealedChunk(c, s, i)) + FramesFrom(c, s, i + 1)
  {
  }

  lemma FrameOf(input: bytes, n: nat)
    requires 4 + n <= |input| && FromU32(input[..4]) == n
    ensures input == Frame(input[4..4 + n]) + input[4 + n..]
  {
    U32Print(input[..4]);
    assert input == input[..4] + input[4..4 + n] + input[4 + n..];
  }

  lemma ReadFooterIsHonest(c: Crypto, streams: set<Stream>, key: bytes, header: Header, context: string,
                           input: bytes, index: nat, soFar: bytes) returns (s: Stream, trailing: bytes)
    requires Ideal(c, streams) && FreshHeaders(streams) && (forall t :: t in streams ==> Honest(c, t))
    requires ReadFooter(c, key, header, context, input, index, soFar).outcome.Ok?
    ensures s in streams && s.header == header && s.context == context && s.key == key
    ensures index == |ChunksOf(s)| && soFar == s.plain && input == Frame(SealedFooter(c, s)) + trailing
    ensures ReadFooter(c, key, header, context, input, index, soFar).written == soFar
  {
    var n := FromU32(input[..4]);
    var x := input[4..4 + n];
    s := OpenedWasSealed(c, streams, key, Nonce(header.baseNonce, index), FooterAad(header, context), x);
    trailing := input[4 + n..];
    NoncesAreDistinct(header.baseNonce, index, |ChunksOf(s)|);
    assert c.parseFooter(c.footerText(Summary(s))) == Some(Summary(s));
    U32Print(input[..4]);
    assert input == input[..4] + x + trailing;
  }

  /**
   Whatever bytes are presented: if they decrypt, they are a header text for the header of one
   honest stream written for this context, then exactly the frames of that stream, each in its
   place and none missing or repeated, and the result is its plaintext.
   */
  lemma OnlySealedPlaintextDecrypts(c: Crypto, streams: set<Stream>, input: bytes, context: string)
    returns (s: Stream, headerText: bytes, trailing: bytes)
    requires Ideal(c, streams) && FreshHeaders(streams) && (forall t :: t in streams ==> Honest(c, t))
    requires Decrypted(c, input, context).outcome.Ok?
    ensures s in streams && s.context == context && c.parseHeader(headerText) == Some(s.header)
            && |headerText| < U32_SIZE
    ensures input == Head(headerText) + FramesFrom(c, s, 0) + trailing
    ensures Decrypted(c, input, context) == Reading(s.plain, Ok((|s.plain|, Sha256OfBytes(s.plain))))
  {
    hide Ideal, U32, FromU32, Honest, Chunks, FramesFrom, ReadFrames, OpenHeader;
    var rest := input[|MAGIC|..];
    hide Take, Drop, Head;
    var n := FromU32(rest[..4]);
    headerText := Take(rest[4..], n);
    var header := c.parseHeader(headerText).value;
    var key := OpenHeader(c, header, context).value;
    var body := Drop(rest[4..], n);
    s, trailing := ReadFramesAreHonest(c, streams, key, header, context, body, 0, []);
    ReadingCounts(c, key, header, context, body, 0, []);
    FramesNotEmpty(c, s);
    InputParts(input);
    assert input == Head(headerText) + FramesFrom(c, s, 0) + trailing;
  }

  lemma InputParts(input: bytes)
    requires Take(input, |MAGIC|) == MAGIC && |input| >= |MAGIC| + 4
    ensures var rest := input[|MAGIC|..];
            var n := FromU32(rest[..4]);
            Drop(rest[4..], n) != [] ==>
              |Take(rest[4..], n)| < U32_SIZE && input == Head(Take(rest[4..], n)) + Drop(rest[4..], n)
  {
    hide U32, FromU32;
    var rest := input[|MAGIC|..];
    var n := FromU32(rest[..4]);
    U32Print(rest[..4]);
    if 4 + n <= |rest| {
      FrameOf(rest, n);
    }
    assert input == MAGIC + rest;
  }

  lemma FramesNotEmpty(c: Crypto, s: Stream)
    ensures FramesFrom(c, s, 0) != []
  {
  }

  /** A reading that succeeds reports the length and digest of what it wrote. */
  lemma {:induction false} ReadingCounts(c: Crypto, key: bytes, header: Header, context: string, input: bytes,
                                         index: nat, soFar: bytes)
    ensures var r := ReadFrames(c, key, header, context, input, index, soFar);
            r.outcome.Ok? ==> r.outcome.value == (|r.written|, Sha256OfBytes(r.written))
    decreases |input|
  {
    if |input| >= 4 {
      var n := FromU32(input[..4]);
      if 0 < n <= |input| - 4 && index < U32_SIZE {
        var found := c.open(key, Nonce(header.baseNonce, index), ChunkAad(header, index, context), input[4..4 + n]);
        if found.Some? {
          ReadingCounts(c, key, header, context, input[4 + n..], index + 1, soFar + found.value);
        }
      }
    }
  }

  /** No strict prefix of an honest stream decrypts. */
  lemma StrictPrefixIsRejected(c: Crypto, streams: set<Stream>, s: Stream, cut: nat, context: string)
    requires Ideal(c, streams) && FreshHeaders(streams) && (forall t :: t in streams ==> Honest(c, t))
    requires s in streams && cut < |Encrypted(c, s)|
    ensures Decrypted(c, Encrypted(c, s)[..cut], context).outcome.Err?
  {
    hide Ideal, U32, FromU32, Honest, Chunks, FramesFrom, Decrypted;
    var whole, input := Encrypted(c, s), Encrypted(c, s)[..cut];
    if Decrypted(c, input, context).outcome.Ok? {
      var t, headerText, trailing := OnlySealedPlaintextDecrypts(c, streams, input, context);
      HeadersAgree(c, s, headerText, FramesFrom(c, s, 0), FramesFrom(c, t, 0) + trailing, cut);
      HeaderReadsBack(c, streams, s.header);
    }
  }

  lemma HeaderReadsBack(c: Crypto, streams: set<Stream>, header: Header)
    requires Ideal(c, streams)
    ensures c.parseHeader(c.headerText(header)) == Some(header)
  {
  }

  /** Two streams one of which starts with the other start with the same header text. */
  lemma HeadersAgree(c: Crypto, s: Stream, headerText: bytes, tail: bytes, otherTail: bytes, cut: nat)
    requires Honest(c, s) && |headerText| < U32_SIZE
    requires cut <= |Head(c.headerText(s.header)) + tail|
    requires (Head(c.headerText(s.header)) + tail)[..cut] == Head(headerText) + otherTail
    ensures headerText == c.headerText(s.header)
  {
    hide U32, FromU32, Chunks;
    var own := c.headerText(s.header);
    var whole, input := Head(own) + tail, Head(headerText) + otherTail;
    assert input == MAGIC + (U32(|headerText|) + (headerText + otherTail));
    assert whole == MAGIC + (U32(|own|) + (own + tail));
    assert whole[|MAGIC|..][..4] == U32(|own|) && input[|MAGIC|..][..4] == U32(|headerText|);
    assert whole[|MAGIC|..][..4] == input[|MAGIC|..][..4] by {
      assert input[..|MAGIC| + 4] == whole[..|MAGIC| + 4];
      assert input[..|MAGIC| + 4][|MAGIC|..] == input[|MAGIC|..][..4];
      assert whole[..|MAGIC| + 4][|MAGIC|..] == whole[|MAGIC|..][..4];
    }
    U32RoundTrip(|own|);
    U32RoundTrip(|headerText|);
    var from, to := |MAGIC| + 4, |MAGIC| + 4 + |own|;
    assert whole[from..to] == own && input[from..to] == headerText;
    assert whole[from..to] == input[from..to];
  }

  // ---------- An ideal cipher exists ----------

  function Tagged(plain: bytes): (x: bytes)
    ensures |x| == |plain| + TAG_BYTES
  {
    plain + seq(TAG_BYTES, _ => 0 as byte)
  }

  function Untagged(x: bytes): bytes {
    if |x| >= TAG_BYTES then x[..|x| - TAG_BYTES] else []
  }

  lemma UntagTagged(x: bytes, plain: bytes)
    ensures x == Tagged(plain) <==> x == Tagged(Untagged(x)) && plain == Untagged(x)
  {
    assert Tagged(plain)[..|plain|] == plain;
  }

  /** seal appends a tag; open strips it and consults the list of what was sealed. */
  ghost function ListedCipher(c: Crypto, streams: set<Stream>): Crypto {
    c.(seal := (k, n, a, p) => Tagged(p),
       open := (k, n, a, x) =>
         if x == Tagged(Untagged(x)) && exists s :: s in streams && SealedIn(c, s, k, n, a, Untagged(x))
         then Some(Untagged(x)) else None)
  }

  lemma SealedInNeedsNoCipher(c: Crypto, d: Crypto, s: Stream, key: bytes, nonce: bytes, aad: Aad, plain: bytes)
    requires c.footerText == d.footerText
    ensures SealedIn(c, s, key, nonce, aad, plain) == SealedIn(d, s, key, nonce, aad, plain)
  {
  }

  lemma ListedOpens(c: Crypto, streams: set<Stream>, k: bytes, n: bytes, a: Aad, x: bytes, p: bytes)
    ensures var d := ListedCipher(c, streams);
            d.open(k, n, a, x) == Some(p) <==>
              (exists s :: s in streams && SealedIn(d, s, k, n, a, p)) && x == d.seal(k, n, a, p)
  {
    hide SealedIn, Tagged, Untagged;
    var d := ListedCipher(c, streams);
    forall s { SealedInNeedsNoCipher(c, d, s, k, n, a, p); }
    UntagTagged(x, p);
  }

  /** The assumption of the theorems is not empty: for any streams there is a cipher ideal for them. */
  lemma IdealIsPossible(c: Crypto, streams: set<Stream>)
    requires forall h :: c.parseHeader(c.headerText(h)) == Some(h)
    requires forall f :: c.parseFooter(c.footerText(f)) == Some(f)
    ensures Ideal(ListedCipher(c, streams), streams)
  {
    hide SealedIn, Tagged, Untagged;
    var d := ListedCipher(c, streams);
    forall k, n, a, x, p
      ensures d.open(k, n, a, x) == Some(p) <==>
                (exists s :: s in streams && SealedIn(d, s, k, n, a, p)) && x == d.seal(k, n, a, p)
    {
      ListedOpens(c, streams, k, n, a, x, p);
    }
    forall h ensures d.parseHeader(d.headerText(h)) == Some(h) {}
    forall f ensures d.parseFooter(d.footerText(f)) == Some(f) {}
  }

  /** Nor is the honesty they ask of every stream: it carries over when seals are as long as plaintext and tag. */
  lemma HonestUnderListedCipher(c: Crypto, streams: set<Stream>, s: Stream)
    requires Honest(c, s) && forall k, n, a, p :: |c.seal(k, n, a, p)| == |p| + TAG_BYTES
    ensures Honest(ListedCipher(c, streams), s)
  {
    hide SealedIn, Tagged, Untagged, U32, Chunks;
    var d := ListedCipher(c, streams);
    assert |SealedFooter(d, s)| == |SealedFooter(c, s)|;
    forall i | 0 <= i < |ChunksOf(s)| ensures |SealedChunk(d, s, i)| == |SealedChunk(c, s, i)| {
    }
  }

  // ---------- The streams and the cipher as the source runs them ----------

  class ByteSource {
    var rest: bytes

    constructor (data: bytes)
      ensures rest == data
    {
      rest := data;
    }

    /** Up to n bytes; fewer only at the end. */
    method Read(n: nat) returns (data: bytes)
      modifies this
      ensures data == Take(old(rest), n) && rest == Drop(old(rest), n)
    {
      data, rest := Take(rest, n), Drop(rest, n);
    }
  }

  class ByteSink {
    var written: bytes

    constructor ()
      ensures written == []
    {
      written := [];
    }

    method Write(data: bytes)
      modifies this
      ensures written == old(written) + data
    {
      written := written + data;
    }
  }

  class ChunkedAeadArtifactCipher {
    const crypto: Crypto
    const keyVersion: string
    const chunkBytes: nat

    constructor (crypto: Crypto, keyVersion: string, chunkBytes: nat)
      requires 0 < chunkBytes
      ensures this.crypto == crypto && this.keyVersion == keyVersion && this.chunkBytes == chunkBytes
    {
      this.crypto, this.keyVersion, this.chunkBytes := crypto, keyVersion, chunkBytes;
    }

    /** The stream one call writes, given the random base nonce it draws. */
    ghost function StreamFor(plain: bytes, context: string, baseNonce: bytes, key: bytes): Stream {
      Stream(key, HeaderFor(keyVersion, chunkBytes, baseNonce, context), context, plain)
    }

    method WriteFrame(target: ByteSink, sealed: bytes) returns (ok: bool)
      modifies target
      ensures ok <==> |sealed| < U32_SIZE
      ensures ok ==> target.written == old(target.written) + Frame(sealed)
    {
      if |sealed| >= U32_SIZE {
        return false;
      }
      target.Write(U32(|sealed|));
      target.Write(sealed);
      return true;
    }

    method EncryptStream(source: ByteSource, target: ByteSink, context: string, baseNonce: bytes)
      returns (r: Result<(nat, Digest, nat), CipherError>)
      requires 0 < chunkBytes
      modifies source, target
      ensures r.Ok? <==> crypto.keyOf(keyVersion).Some? && |crypto.keyOf(keyVersion).value| == 32
                         && Fits(crypto,
                                 StreamFor(old(source.rest), context, baseNonce, crypto.keyOf(keyVersion).value))
      ensures r.Ok? ==>
                var s := StreamFor(old(source.rest), context, baseNonce, crypto.keyOf(keyVersion).value);
                && Honest(crypto, s)
                && target.written == old(target.written) + Encrypted(crypto, s)
                && r.value == (|s.plain|, Sha256OfBytes(s.plain), |ChunksOf(s)|)
    {
      hide U32, Chunks, FramesFrom;
      var found := crypto.keyOf(keyVersion);
      if found.None? {
        return Err(KeyUnavailable);
      }
      var key := found.value;
      if |key| != 32 {
        return Err(KeyNot32Bytes);
      }
      var header := HeaderFor(keyVersion, chunkBytes, baseNonce, context);
      ghost var s := StreamFor(source.rest, context, baseNonce, key);
      target.Write(MAGIC);
      var fits := WriteFrame(target, crypto.headerText(header));
      if !fits {
        return Err(LengthOverflow);
      }
      ghost var head := target.written;
      assert head == old(target.written) + Head(crypto.headerText(header));
      var index, hashed, problem := EncryptChunks(source, target, key, header, context, s);
      if problem.Some? {
        return Err(problem.value);
      }
      if index >= U32_SIZE {
        return Err(NonceOverflow);
      }
      LastFrames(crypto, s);
      var footer := crypto.footerText(Footer(|hashed|, Sha256OfBytes(hashed), index));
      var sealed := crypto.seal(key, Nonce(baseNonce, index), FooterAad(header, context), footer);
      target.Write(U32(0));
      fits := WriteFrame(target, sealed);
      if !fits {
        return Err(LengthOverflow);
      }
      assert target.written == head + FramesFrom(crypto, s, 0);
      return Ok((|hashed|, Sha256OfBytes(hashed), index));
    }

    /** The loop over the source; s is the stream being written. */
    method EncryptChunks(source: ByteSource, target: ByteSink, key: bytes, header: Header, context: string,
                         ghost s: Stream)
      returns (index: nat, hashed: bytes, problem: Option<CipherError>)
      requires s == Stream(key, header, context, source.rest) && 0 < header.chunkBytes == chunkBytes
      modifies source, target
      ensures problem.None? ==>
                && index == |ChunksOf(s)| && hashed == s.plain
                && target.written + FramesFrom(crypto, s, index) == old(target.written) + FramesFrom(crypto, s, 0)
      ensures problem.None? <==> |ChunksOf(s)| <= U32_SIZE
                                 && forall i :: 0 <= i < |ChunksOf(s)| ==> |SealedChunk(crypto, s, i)| < U32_SIZE
    {
      hide U32, Chunks, FramesFrom, Frame, Nonce, Take, Drop;
      index, hashed := 0, [];
      while true
        invariant hashed + source.rest == s.plain
        invariant index <= |ChunksOf(s)| && index <= U32_SIZE && ChunksOf(s)[index..] == Chunks(source.rest, chunkBytes)
        invariant forall i :: 0 <= i < index ==> |SealedChunk(crypto, s, i)| < U32_SIZE
        invariant target.written + FramesFrom(crypto, s, index) == old(target.written) + FramesFrom(crypto, s, 0)
        decreases |source.rest|
      {
        ChunksStep(source.rest, chunkBytes);
        var plain := source.Read(chunkBytes);
        if plain == [] {
          assert |ChunksOf(s)[index..]| == 0;
          return index, hashed, None;
        }
        assert ChunksOf(s)[index..][0] == plain;
        assert ChunksOf(s)[index..][1..] == ChunksOf(s)[index + 1..];
        hashed := hashed + plain;
        if index >= U32_SIZE {
          return index, hashed, Some(NonceOverflow);
        }
        var sealed := crypto.seal(key, Nonce(header.baseNonce, index), ChunkAad(header, index, context), plain);
        assert sealed == SealedChunk(crypto, s, index);
        NextFrame(crypto, s, index);
        var fits := WriteFrame(target, sealed);
        if !fits {
          return index, hashed, Some(LengthOverflow);
        }
        index := index + 1;
      }
    }

    /** The frames and the footer; plaintext reaches the target chunk by chunk, before the footer is checked. */
    method DecryptFrames(key: bytes, header: Header, source: ByteSource, target: ByteSink, context: string)
      returns (r: Result<(nat, Digest), CipherError>)
      modifies source, target
      ensures var reading := ReadFrames(crypto, key, header, context, old(source.rest), 0, []);
              r == reading.outcome && target.written == old(target.written) + reading.written
    {
      hide U32, FromU32;
      var total, index, hashed: bytes := 0, 0, [];
      ghost var whole := ReadFrames(crypto, key, header, context, source.rest, 0, []);
      while true
        invariant total == |hashed| && target.written == old(target.written) + hashed
        invariant ReadFrames(crypto, key, header, context, source.rest, index, hashed) == whole
        decreases |source.rest|
      {
        ghost var input := source.rest;
        var rawLen := source.Read(4);
        if |rawLen| != 4 {
          return Err(FrameTruncated);
        }
        var sealedLen := FromU32(rawLen);
        ReadSlices(input, sealedLen);
        if sealedLen == 0 {
          r := DecryptFooter(key, header, source, context, index, hashed);
          return;
        }
        var sealed := source.Read(sealedLen);
        if |sealed| != sealedLen {
          return Err(FrameTruncated);
        }
        if index >= U32_SIZE {
          return Err(NonceOverflow);
        }
        var plain := crypto.open(key, Nonce(header.baseNonce, index), ChunkAad(header, index, context), sealed);
        if plain.None? {
          return Err(AuthenticationFailed);
        }
        target.Write(plain.value);
        hashed := hashed + plain.value;
        total := total + |plain.value|;
        index := index + 1;
      }
    }

    method DecryptFooter(key: bytes, header: Header, source: ByteSource, context: string, index: nat, hashed: bytes)
      returns (r: Result<(nat, Digest), CipherError>)
      modifies source
      ensures r == ReadFooter(crypto, key, header, context, old(source.rest), index, hashed).outcome
      ensures ReadFooter(crypto, key, header, context, old(source.rest), index, hashed).written == hashed
    {
      hide U32, FromU32;
      ghost var input := source.rest;
      var rawLen := source.Read(4);
      if |rawLen| != 4 {
        return Err(FooterMissing);
      }
      var footerLen := FromU32(rawLen);
      ReadSlices(input, footerLen);
      var sealed := source.Read(footerLen);
      if |sealed| != footerLen {
        return Err(FooterTruncated);
      }
      if index >= U32_SIZE {
        return Err(NonceOverflow);
      }
      var text := crypto.open(key, Nonce(header.baseNonce, index), FooterAad(header, context), sealed);
      if text.None? {
        return Err(AuthenticationFailed);
      }
      var footer := crypto.parseFooter(text.value);
      if footer.None? {
        return Err(FooterInvalid);
      }
      if footer.value != Footer(|hashed|, Sha256OfBytes(hashed), index) {
        return Err(SummaryMismatch);
      }
      return Ok((|hashed|, Sha256OfBytes(hashed)));
    }

    method DecryptStream(source: ByteSource, target: ByteSink, context: string)
      returns (r: Result<(nat, Digest), CipherError>)
      modifies source, target
      ensures var reading := Decrypted(crypto, old(source.rest), context);
              r == reading.outcome && target.written == old(target.written) + reading.written
    {
      hide U32, FromU32, ReadFrames;
      assert target.written == target.written + [];
      var magic := source.Read(|MAGIC|);
      if magic != MAGIC {
        return Err(MagicMismatch);
      }
      var rawLen := source.Read(4);
      if |rawLen| != 4 {
        return Err(HeaderMissing);
      }
      var headerText := source.Read(FromU32(rawLen));
      var header := crypto.parseHeader(headerText);
      if header.None? {
        return Err(HeaderInvalid);
      }
      var key := OpenHeader(crypto, header.value, context);
      if key.Err? {
        return Err(key.error);
      }
      r := DecryptFrames(key.value, header.value, source, target, context);
    }
  }

  lemma ReadSlices(input: bytes, n: nat)
    requires |input| >= 4
    ensures Take(input, 4) == input[..4] && Drop(input, 4) == input[4..]
    ensures |Take(Drop(input, 4), n)| == n <==> n <= |input| - 4
    ensures n <= |input| - 4 ==> Take(Drop(input, 4), n) == input[4..4 + n] && Drop(Drop(input, 4), n) == input[4 + n..]
  {
  }

  lemma ChunksStep(plain: bytes, n: nat)
    requires 0 < n
    ensures Chunks(plain, n) == if plain == [] then [] else [Take(plain, n)] + Chunks(Drop(plain, n), n)
    ensures Take(plain, n) + Drop(plain, n) == plain && (Take(plain, n) == [] <==> plain == [])
  {
    hide Take, Drop;
    TakeAndDrop(plain, n);
  }
}
