/**
 The two readers of the task-business probe that put a byte string together from pieces a server hands out
 (scripts/task-business/read-only-probe.ts:135-190 and 322-433). The server answers as it likes: `server(n, offset)` is
 the answer to the n-th request of a read, which asks for the bytes from `offset` on.
 */
module ChunkReader {
  import opened Wrappers

  type Byte = b: nat | b < 256

  type Bytes = seq<Byte>

  type Digest = Bytes -> string

  const MAX_SAFE_INTEGER := 9_007_199_254_740_991
  const MAX_PART := 65_536

  /** `nextOffset`: absent, the decimal text of a number, or anything else. */
  datatype Next = NoNext | NextAt(offset: nat) | OtherNext

  // ------------------------------------------------------------------------------------------ snapshot parts

  /**
   `bytes` is None unless encoded as canonical base64, `totalBytes` unless the decimal text of a number, `sha256` unless
   64 hexadecimal digits, and `offset` unless a number.
   */
  datatype Part = Part(
    bytes: Option<Bytes>, totalBytes: Option<nat>, sha256: Option<string>, offset: Option<nat>, next: Next)

  datatype Answer = QueryFails | NoPart | Answer(part: Part)

  datatype Failure = DescriptorInvalid | QueryFailed | PartInvalid | DigestMismatch | JsonInvalid

  type Server = (nat, nat) -> Answer

  predicate NextFits(next: Next, end: nat, size: nat) {
    next == if end < size then NextAt(end) else NoNext
  }

  predicate PartFits(p: Part, size: nat, offset: nat, expected: Option<string>) {
    && p.bytes.Some? && p.sha256.Some? && p.totalBytes == Some(size) && p.offset == Some(offset)
    && (expected.Some? ==> p.sha256 == expected)
    && 1 <= |p.bytes.value| <= MAX_PART && offset + |p.bytes.value| <= size
    && NextFits(p.next, offset + |p.bytes.value|, size)
  }

  datatype Collected = Collected(bytes: Bytes, sha256: Option<string>)

  /** The rest of the loop, when `n` parts have brought the bytes `got`. */
  function Collect(server: Server, size: nat, n: nat, got: Bytes, expected: Option<string>): Result<Collected, Failure>
    decreases size - |got|
  {
    if |got| >= size then Ok(Collected(got, expected))
    else
      match server(n, |got|)
      case QueryFails => Err(QueryFailed)
      case NoPart => Err(PartInvalid)
      case Answer(p) =>
        if PartFits(p, size, |got|, expected) then Collect(server, size, n + 1, got + p.bytes.value, p.sha256)
        else Err(PartInvalid)
  }

  function Finished(c: Collected, digest: Digest, parses: Bytes -> bool): Result<Bytes, Failure> {
    if Some(digest(c.bytes)) != c.sha256 then Err(DigestMismatch)
    else if !parses(c.bytes) then Err(JsonInvalid)
    else Ok(c.bytes)
  }

  function Snapshot(server: Server, size: int, digest: Digest, parses: Bytes -> bool): Result<Bytes, Failure> {
    if !(1 <= size <= MAX_SAFE_INTEGER) then Err(DescriptorInvalid)
    else
      var c := Collect(server, size, 0, [], None);
      if c.Err? then Err(c.error) else Finished(c.value, digest, parses)
  }

  /** The n-th part of `b`, cut at `lo` and `hi`. */
  function Slice(b: Bytes, lo: nat, hi: nat, sha256: string): Part
    requires lo <= hi <= |b|
  {
    Part(Some(b[lo..hi]), Some(|b|), Some(sha256), Some(lo), if hi < |b| then NextAt(hi) else NoNext)
  }

  predicate LegalEnd(b: Bytes, lo: nat, hi: nat) {
    lo < hi <= |b| && hi - lo <= MAX_PART
  }

  /** From its n-th answer on, the server hands out `b` from `cuts[0]` to the end, cut as `cuts` says. */
  predicate Serves(server: Server, b: Bytes, sha256: string, n: nat, cuts: seq<nat>)
    decreases |cuts|
  {
    && cuts != []
    && if |cuts| == 1 then cuts[0] == |b|
       else
         && LegalEnd(b, cuts[0], cuts[1]) && server(n, cuts[0]) == Answer(Slice(b, cuts[0], cuts[1], sha256))
         && Serves(server, b, sha256, n + 1, cuts[1..])
  }

  lemma ServesMore(server: Server, b: Bytes, sha256: string, n: nat, lo: nat, rest: seq<nat>)
    requires Serves(server, b, sha256, n + 1, rest)
    requires LegalEnd(b, lo, rest[0]) && server(n, lo) == Answer(Slice(b, lo, rest[0], sha256))
    ensures Serves(server, b, sha256, n, [lo] + rest)
  {
    assert ([lo] + rest)[1..] == rest;
  }

  /** What a read that succeeds was served. */
  lemma {:induction false} CollectedWasServed(server: Server, size: nat, n: nat, got: Bytes, expected: Option<string>)
    returns (cuts: seq<nat>)
    requires |got| <= size && Collect(server, size, n, got, expected).Ok?
    requires expected.Some? || |got| < size
    ensures var c := Collect(server, size, n, got, expected).value;
            && |c.bytes| == size && got <= c.bytes && c.sha256.Some? && (expected.Some? ==> c.sha256 == expected)
            && Serves(server, c.bytes, c.sha256.value, n, cuts) && cuts[0] == |got|
    decreases size - |got|
  {
    var c := Collect(server, size, n, got, expected).value;
    if |got| == size {
      cuts := [size];
    } else {
      var p := server(n, |got|).part;
      var rest := CollectedWasServed(server, size, n + 1, got + p.bytes.value, p.sha256);
      assert c.bytes[|got|..|got| + |p.bytes.value|] == p.bytes.value;
      ServesMore(server, c.bytes, c.sha256.value, n, |got|, rest);
      cuts := [|got|] + rest;
    }
  }

  lemma {:induction false} ServedIsCollected(
      server: Server, b: Bytes, sha256: string, n: nat, cuts: seq<nat>, expected: Option<string>)
    requires Serves(server, b, sha256, n, cuts)
    requires expected == Some(sha256) || (expected.None? && |cuts| > 1)
    ensures cuts[0] <= |b|
    ensures Collect(server, |b|, n, b[..cuts[0]], expected) == Ok(Collected(b, Some(sha256)))
    decreases |cuts|
  {
    if |cuts| == 1 {
      assert b[..cuts[0]] == b;
    } else {
      var lo, hi := cuts[0], cuts[1];
      assert b[..lo] + b[lo..hi] == b[..hi];
      ServedIsCollected(server, b, sha256, n + 1, cuts[1..], Some(sha256));
    }
  }

  /** Some way of cutting `b` explains all answers the server gives. */
  ghost predicate ServesAll(server: Server, b: Bytes, sha256: string) {
    exists cuts :: Serves(server, b, sha256, 0, cuts) && cuts[0] == 0
  }

  /**
   Whatever the server answers, a snapshot object is read successfully exactly when it was handed out in order, without
   gap or overlap, in legal parts of the declared total that name the digest of the whole, and it is JSON.
   */
  lemma SnapshotReadExactlyWhenServed(server: Server, size: int, digest: Digest, parses: Bytes -> bool, b: Bytes)
    ensures Snapshot(server, size, digest, parses) == Ok(b)
        <==> size == |b| && 1 <= size <= MAX_SAFE_INTEGER && parses(b) && ServesAll(server, b, digest(b))
  {
    if Snapshot(server, size, digest, parses) == Ok(b) {
      var cuts := CollectedWasServed(server, size, 0, [], None);
    }
    if size == |b| && 1 <= size <= MAX_SAFE_INTEGER && ServesAll(server, b, digest(b)) {
      var cuts :| Serves(server, b, digest(b), 0, cuts) && cuts[0] == 0;
      ServedIsCollected(server, b, digest(b), 0, cuts, None);
      assert b[..0] == [];
    }
  }

  /** The parts bring all bytes, and name a digest that is not theirs. */
  ghost predicate ServesWrongDigest(server: Server, size: nat, digest: Digest) {
    exists b, sha256 :: |b| == size && sha256 != digest(b) && ServesAll(server, b, sha256)
  }

  lemma CollectedExactly(server: Server, size: nat, b: Bytes, sha256: string)
    requires size >= 1
    ensures Collect(server, size, 0, [], None) == Ok(Collected(b, Some(sha256)))
        <==> |b| == size && ServesAll(server, b, sha256)
  {
    if Collect(server, size, 0, [], None) == Ok(Collected(b, Some(sha256))) {
      var cuts := CollectedWasServed(server, size, 0, [], None);
    }
    if |b| == size && ServesAll(server, b, sha256) {
      var cuts :| Serves(server, b, sha256, 0, cuts) && cuts[0] == 0;
      ServedIsCollected(server, b, sha256, 0, cuts, None);
      assert b[..0] == [];
    }
  }

  /**
   A read fails for its size before anything is asked; for the digest exactly when all parts came and named another; and
   for its JSON exactly when all parts came with their digest and are none. Any other failure is that of a part.
   */
  lemma SnapshotFailsExactly(server: Server, size: int, digest: Digest, parses: Bytes -> bool)
    ensures var r := Snapshot(server, size, digest, parses);
            && (r == Err(DescriptorInvalid) <==> size < 1 || size > 9_007_199_254_740_991)
            && (r == Err(DigestMismatch) <==>
                  1 <= size <= 9_007_199_254_740_991 && ServesWrongDigest(server, size, digest))
            && (r == Err(JsonInvalid) <==>
                  1 <= size <= 9_007_199_254_740_991
                  && exists b :: |b| == size && !parses(b) && ServesAll(server, b, digest(b)))
  {
    if 1 <= size <= MAX_SAFE_INTEGER {
      CollectFailures(server, size, 0, [], None);
      var c := Collect(server, size, 0, [], None);
      if c.Ok? {
        var cuts := CollectedWasServed(server, size, 0, [], None);
        CollectedExactly(server, size, c.value.bytes, c.value.sha256.value);
      }
      forall b, sha256 | |b| == size && ServesAll(server, b, sha256)
        ensures c == Ok(Collected(b, Some(sha256)))
      {
        CollectedExactly(server, size, b, sha256);
      }
    }
  }

  lemma {:induction false} CollectFailures(server: Server, size: nat, n: nat, got: Bytes, expected: Option<string>)
    ensures var c := Collect(server, size, n, got, expected);
            c.Err? ==> c.error == QueryFailed || c.error == PartInvalid
    decreases size - |got|
  {
    if |got| < size && server(n, |got|).Answer? && PartFits(server(n, |got|).part, size, |got|, expected) {
      var p := server(n, |got|).part;
      CollectFailures(server, size, n + 1, got + p.bytes.value, p.sha256);
    }
  }

  predicate AnswersUpTo(server: Server, b: Bytes, sha256: string, n: nat, lo: nat, hi: nat) {
    LegalEnd(b, lo, hi) && server(n, lo) == Answer(Slice(b, lo, hi, sha256))
  }

  ghost predicate AnswersSlice(server: Server, b: Bytes, sha256: string, n: nat, lo: nat) {
    exists hi: nat :: AnswersUpTo(server, b, sha256, n, lo, hi)
  }

  /** The server answers each request with a slice of `b` of any legal length. */
  ghost predicate Slices(server: Server, b: Bytes, sha256: string) {
    forall n: nat, lo: nat | lo < |b| :: AnswersSlice(server, b, sha256, n, lo)
  }

  lemma {:induction false} SlicesServe(server: Server, b: Bytes, sha256: string, n: nat, lo: nat)
    returns (cuts: seq<nat>)
    requires Slices(server, b, sha256) && lo <= |b|
    ensures Serves(server, b, sha256, n, cuts) && cuts[0] == lo
    decreases |b| - lo
  {
    if lo == |b| {
      cuts := [lo];
    } else {
      assert AnswersSlice(server, b, sha256, n, lo);
      var hi: nat :| AnswersUpTo(server, b, sha256, n, lo, hi);
      var rest := SlicesServe(server, b, sha256, n + 1, hi);
      ServesMore(server, b, sha256, n, lo, rest);
      cuts := [lo] + rest;
    }
  }

  /** Reassembly undoes slicing, whatever lengths the server chooses, and however they change between requests. */
  lemma ReassemblyUndoesSlicing(server: Server, b: Bytes, digest: Digest, parses: Bytes -> bool)
    requires Slices(server, b, digest(b)) && parses(b)
    ensures Snapshot(server, |b|, digest, parses)
         == if 1 <= |b| <= MAX_SAFE_INTEGER then Ok(b) else Err(DescriptorInvalid)
  {
    if 1 <= |b| <= MAX_SAFE_INTEGER {
      var cuts := SlicesServe(server, b, digest(b), 0, 0);
      SnapshotReadExactlyWhenServed(server, |b|, digest, parses, b);
    }
  }

  /** `readSnapshotDescriptor`. */
  method ReadSnapshotDescriptor(server: Server, size: int, digest: Digest, parses: Bytes -> bool)
    returns (r: Result<Bytes, Failure>)
    ensures r == Snapshot(server, size, digest, parses)
  {
    if size < 1 || size > MAX_SAFE_INTEGER {
      return Err(DescriptorInvalid);
    }
    var chunks: Bytes := [];
    var offset: nat := 0;
    var expected: Option<string> := None;
    var n: nat := 0;
    while offset < size
      invariant offset == |chunks|
      invariant Collect(server, size, 0, [], None) == Collect(server, size, n, chunks, expected)
    {
      var answer := server(n, offset);
      if answer.QueryFails? {
        return Err(QueryFailed);
      }
      if answer.NoPart? {
        return Err(PartInvalid);
      }
      var part := answer.part;
      if part.bytes.None? || part.totalBytes != Some(size) || part.sha256.None? || part.offset != Some(offset)
         || (expected.Some? && part.sha256 != expected)
      {
        return Err(PartInvalid);
      }
      var bytes := part.bytes.value;
      var end := offset + |bytes|;
      if |bytes| < 1 || |bytes| > MAX_PART || end > size
         || (end < size && part.next != NextAt(end)) || (end == size && part.next != NoNext)
      {
        return Err(PartInvalid);
      }
      expected := part.sha256;
      chunks := chunks + bytes;
      offset := end;
      n := n + 1;
    }
    return Finished(Collected(chunks, expected), digest, parses);
  }

  // ------------------------------------------------------------------------------------------ artifact content

  datatype Identity = Identity(
    taskId: string, executionId: string, providerId: string, resourceId: string, operationName: string,
    simulationId: string)

  datatype Ref = Ref(sizeBytes: nat, sha256: string, mediaType: string, handle: string, expiresAt: Option<string>)

  /** Stored is an available artifact whose content is a `content_ref`. */
  datatype Body = Stored(ref: Ref) | Elsewhere

  datatype Artifact = Artifact(artifactId: string, revision: nat, identity: Identity, body: Body)

  datatype Chunk = Chunk(
    bytes: Option<Bytes>, mediaType: string, sha256: string, totalBytes: Option<nat>, offset: Option<nat>, next: Next)

  /** `content`: absent, not an object, or a chunk. */
  datatype Content = NoContent | OtherContent | Content(chunk: Chunk)

  datatype ArtifactAnswer = ArtifactQueryFails | NoArtifact | ArtifactAnswer(artifact: Artifact, content: Content)

  datatype ArtifactFailure =
    | ArtifactQueryFailed
    | ArtifactInvalid
    | IdentityMismatch
    | ContentInvalid
    | RefChanged
    | ContentMissing
    | ArtifactDigestMismatch

  /** What is emitted; `content` is what the digest was computed over. */
  datatype Report =
    | Described(revision: nat)
    | Delivered(revision: nat, ref: Ref, chunks: nat, content: Bytes)

  type ArtifactServer = (nat, nat) -> ArtifactAnswer

  /** What the probe asks for: the artifact, the identity of its task, and the most bytes it wants in a chunk. */
  datatype Wanted = Wanted(artifactId: string, identity: Identity, chunkBytes: nat)

  predicate Matches(a: Artifact, w: Wanted, revision: Option<nat>) {
    a.artifactId == w.artifactId && a.identity == w.identity && (revision.Some? ==> a.revision == revision.value)
  }

  predicate ChunkDescribed(c: Chunk, ref: Ref, offset: nat) {
    && c.bytes.Some? && c.mediaType == ref.mediaType && c.sha256 == ref.sha256
    && c.totalBytes == Some(ref.sizeBytes) && c.offset == Some(offset)
  }

  predicate ChunkFits(c: Chunk, ref: Ref, offset: nat, chunkBytes: nat)
    requires c.bytes.Some?
  {
    var end := offset + |c.bytes.value|;
    && |c.bytes.value| <= chunkBytes && end <= ref.sizeBytes
    && (end < ref.sizeBytes ==> c.bytes.value != []) && NextFits(c.next, end, ref.sizeBytes)
  }

  /** The first check an answer fails, or the reference and bytes it contributes. */
  datatype Verdict =
    | Refuse(failure: ArtifactFailure)
    | Describe(revision: nat)
    | Take(revision: nat, ref: Ref, bytes: Bytes)

  function Judge(
      a: ArtifactAnswer, w: Wanted, n: nat, offset: nat, revision: Option<nat>, expected: Option<Ref>) : (v: Verdict)
    ensures v.Take? ==> offset + |v.bytes| <= v.ref.sizeBytes
    ensures v.Take? && offset + |v.bytes| < v.ref.sizeBytes ==> v.bytes != []
    ensures v.Take? && expected.Some? ==> v.ref == expected.value
  {
    match a
    case ArtifactQueryFails => Refuse(ArtifactQueryFailed)
    case NoArtifact => Refuse(ArtifactInvalid)
    case ArtifactAnswer(artifact, content) =>
      if !Matches(artifact, w, revision) then Refuse(IdentityMismatch)
      else if artifact.body.Elsewhere? then
        if !content.NoContent? || n > 0 then Refuse(ContentInvalid) else Describe(artifact.revision)
      else
        var ref := artifact.body.ref;
        if expected.Some? && ref != expected.value then Refuse(RefChanged)
        else if !content.Content? then Refuse(ContentMissing)
        else if !ChunkDescribed(content.chunk, ref, offset) || !ChunkFits(content.chunk, ref, offset, w.chunkBytes) then
          Refuse(ContentInvalid)
        else Take(artifact.revision, ref, content.chunk.bytes.value)
  }

  /** The rest of the loop, when `n` chunks have brought the bytes `got`. */
  function Deliver(
      server: ArtifactServer, w: Wanted, digest: Digest, n: nat, got: Bytes, revision: Option<nat>,
      expected: Option<Ref>)
    : Result<Report, ArtifactFailure>
    requires expected.Some? ==> |got| < expected.value.sizeBytes
    decreases if expected.None? then 1 else 0, if expected.None? then 0 else expected.value.sizeBytes - |got|
  {
    match Judge(server(n, |got|), w, n, |got|, revision, expected)
    case Refuse(failure) => Err(failure)
    case Describe(found) => Ok(Described(found))
    case Take(found, ref, bytes) =>
      if |got + bytes| < ref.sizeBytes then Deliver(server, w, digest, n + 1, got + bytes, Some(found), Some(ref))
      else if digest(got + bytes) != ref.sha256 then Err(ArtifactDigestMismatch)
      else Ok(Delivered(found, ref, n + 1, got + bytes))
  }

  function ArtifactRead(server: ArtifactServer, w: Wanted, digest: Digest, revision: Option<nat>)
    : Result<Report, ArtifactFailure>
  {
    Deliver(server, w, digest, 0, [], revision, None)
  }

  /** The answer that carries the bytes of `b` from `lo` to `hi`. */
  function ArtifactSlice(w: Wanted, revision: nat, ref: Ref, b: Bytes, lo: nat, hi: nat): ArtifactAnswer
    requires lo <= hi <= |b|
  {
    ArtifactAnswer(
      Artifact(w.artifactId, revision, w.identity, Stored(ref)),
      Content(Chunk(Some(b[lo..hi]), ref.mediaType, ref.sha256, Some(|b|), Some(lo),
                    if hi < |b| then NextAt(hi) else NoNext)))
  }

  /** Every chunk brings something, except the only chunk of an empty artifact. */
  predicate LegalChunk(w: Wanted, b: Bytes, lo: nat, hi: nat) {
    lo <= hi <= |b| && hi - lo <= w.chunkBytes && (lo < hi || |b| == 0)
  }

  /** `ends` are the ends of the chunks that bring `b` from `lo` on. */
  predicate Delivers(
      server: ArtifactServer, w: Wanted, revision: nat, ref: Ref, b: Bytes, n: nat, lo: nat, ends: seq<nat>)
    decreases |ends|
  {
    && ends != [] && LegalChunk(w, b, lo, ends[0])
    && server(n, lo) == ArtifactSlice(w, revision, ref, b, lo, ends[0])
    && if |ends| == 1 then ends[0] == |b|
       else ends[0] < |b| && Delivers(server, w, revision, ref, b, n + 1, ends[0], ends[1..])
  }

  lemma DeliversMore(
      server: ArtifactServer, w: Wanted, revision: nat, ref: Ref, b: Bytes, n: nat, lo: nat, hi: nat, rest: seq<nat>)
    requires LegalChunk(w, b, lo, hi) && hi < |b| && server(n, lo) == ArtifactSlice(w, revision, ref, b, lo, hi)
    requires Delivers(server, w, revision, ref, b, n + 1, hi, rest)
    ensures Delivers(server, w, revision, ref, b, n, lo, [hi] + rest)
  {
    assert ([hi] + rest)[1..] == rest;
  }

  lemma TakenIsSlice(
      a: ArtifactAnswer, w: Wanted, n: nat, lo: nat, revision: Option<nat>, expected: Option<Ref>, b: Bytes, hi: nat)
    requires Judge(a, w, n, lo, revision, expected).Take?
    requires var v := Judge(a, w, n, lo, revision, expected);
             lo + |v.bytes| == hi <= |b| == v.ref.sizeBytes && b[lo..hi] == v.bytes && (lo < |b| || lo == 0)
    ensures var v := Judge(a, w, n, lo, revision, expected);
            && LegalChunk(w, b, lo, hi) && a == ArtifactSlice(w, v.revision, v.ref, b, lo, hi)
            && (revision.Some? ==> v.revision == revision.value)
  {}

  lemma SliceIsTaken(
      w: Wanted, n: nat, lo: nat, hi: nat, revision: Option<nat>, found: nat, expected: Option<Ref>, ref: Ref, b: Bytes)
    requires LegalChunk(w, b, lo, hi) && ref.sizeBytes == |b|
    requires (revision.Some? ==> found == revision.value) && (expected.Some? ==> ref == expected.value)
    ensures Judge(ArtifactSlice(w, found, ref, b, lo, hi), w, n, lo, revision, expected) == Take(found, ref, b[lo..hi])
  {}

  predicate Completes(r: Result<Report, ArtifactFailure>) {
    r.Ok? && r.value.Delivered?
  }

  /** What a read that delivers was served. */
  lemma {:induction false} DeliveredWasServed(
      server: ArtifactServer, w: Wanted, digest: Digest, n: nat, got: Bytes, revision: Option<nat>,
      expected: Option<Ref>)
    returns (ends: seq<nat>)
    requires if expected.Some? then |got| < expected.value.sizeBytes else got == []
    requires Completes(Deliver(server, w, digest, n, got, revision, expected))
    ensures var Delivered(found, ref, chunks, b) := Deliver(server, w, digest, n, got, revision, expected).value;
            && |b| == ref.sizeBytes && digest(b) == ref.sha256 && got <= b && chunks == n + |ends|
            && (revision.Some? ==> found == revision.value) && (expected.Some? ==> ref == expected.value)
            && Delivers(server, w, found, ref, b, n, |got|, ends)
    decreases if expected.None? then 1 else 0, if expected.None? then 0 else expected.value.sizeBytes - |got|
  {
    var Delivered(found, ref, chunks, b) := Deliver(server, w, digest, n, got, revision, expected).value;
    var Take(was, r, bytes) := Judge(server(n, |got|), w, n, |got|, revision, expected);
    var hi := |got| + |bytes|;
    var rest: seq<nat> := [];
    if hi < r.sizeBytes {
      rest := DeliveredWasServed(server, w, digest, n + 1, got + bytes, Some(was), Some(r));
    }
    PrefixCut(b, got, bytes);
    TakenIsSlice(server(n, |got|), w, n, |got|, revision, expected, b, hi);
    if hi < r.sizeBytes {
      DeliversMore(server, w, found, ref, b, n, |got|, hi, rest);
    }
    ends := [hi] + rest;
  }

  lemma PrefixCut(b: Bytes, got: Bytes, bytes: Bytes)
    requires got + bytes <= b
    ensures got <= b && b[|got|..|got| + |bytes|] == bytes
  {}

  lemma {:induction false} ServedIsDelivered(
      server: ArtifactServer, w: Wanted, digest: Digest, n: nat, lo: nat, revision: Option<nat>, expected: Option<Ref>,
      found: nat, ref: Ref, b: Bytes, ends: seq<nat>)
    requires ref.sizeBytes == |b| && ref.sha256 == digest(b) && lo <= |b|
    requires (revision.Some? ==> found == revision.value) && (expected.Some? ==> ref == expected.value && lo < |b|)
    requires Delivers(server, w, found, ref, b, n, lo, ends)
    ensures Deliver(server, w, digest, n, b[..lo], revision, expected) == Ok(Delivered(found, ref, n + |ends|, b))
    decreases |ends|
  {
    var hi := ends[0];
    SliceIsTaken(w, n, lo, hi, revision, found, expected, ref, b);
    assert b[..lo] + b[lo..hi] == b[..hi];
    if |ends| == 1 {
      assert b[..hi] == b;
    } else {
      ServedIsDelivered(server, w, digest, n + 1, hi, Some(found), Some(ref), found, ref, b, ends[1..]);
    }
  }

  ghost predicate DeliversAll(
      server: ArtifactServer, w: Wanted, revision: nat, ref: Ref, chunks: nat, b: Bytes)
  {
    exists ends :: |ends| == chunks && Delivers(server, w, revision, ref, b, 0, 0, ends)
  }

  /**
   Whatever the server answers, content of an artifact is delivered exactly when all answers describe one revision and
   one reference, and their chunks are consecutive slices of a content of the size and digest the reference names.
   */
  lemma ArtifactReadExactlyWhenServed(
      server: ArtifactServer, w: Wanted, digest: Digest, revision: Option<nat>, found: nat, ref: Ref, chunks: nat,
      b: Bytes)
    ensures ArtifactRead(server, w, digest, revision) == Ok(Delivered(found, ref, chunks, b))
        <==> && |b| == ref.sizeBytes && digest(b) == ref.sha256 && (revision.Some? ==> found == revision.value)
             && DeliversAll(server, w, found, ref, chunks, b)
  {
    if ArtifactRead(server, w, digest, revision) == Ok(Delivered(found, ref, chunks, b)) {
      var ends := DeliveredWasServed(server, w, digest, 0, [], revision, None);
    }
    if |b| == ref.sizeBytes && digest(b) == ref.sha256 && (revision.Some? ==> found == revision.value)
       && DeliversAll(server, w, found, ref, chunks, b)
    {
      var ends :| |ends| == chunks && Delivers(server, w, found, ref, b, 0, 0, ends);
      ServedIsDelivered(server, w, digest, 0, 0, revision, None, found, ref, b, ends);
      assert b[..0] == [];
    }
  }

  /**
   An artifact is described without content exactly when the first answer describes the one asked for, has its content
   elsewhere, and brings none along.
   */
  lemma ArtifactDescribedExactly(
      server: ArtifactServer, w: Wanted, digest: Digest, revision: Option<nat>, found: nat)
    ensures ArtifactRead(server, w, digest, revision) == Ok(Described(found))
        <==> && server(0, 0) == ArtifactAnswer(Artifact(w.artifactId, found, w.identity, Elsewhere), NoContent)
             && (revision.Some? ==> found == revision.value)
  {
    var v := Judge(server(0, 0), w, 0, 0, revision, None);
    if v.Take? && |v.bytes| < v.ref.sizeBytes {
      LaterIsNotDescribed(server, w, digest, 1, v.bytes, Some(v.revision), Some(v.ref));
      assert [] + v.bytes == v.bytes;
    }
  }

  /** Once a chunk was taken, the content has to come. */
  lemma {:induction false} LaterIsNotDescribed(
      server: ArtifactServer, w: Wanted, digest: Digest, n: nat, got: Bytes, revision: Option<nat>,
      expected: Option<Ref>)
    requires n > 0 && expected.Some? && |got| < expected.value.sizeBytes
    ensures var r := Deliver(server, w, digest, n, got, revision, expected); r.Ok? ==> r.value.Delivered?
    decreases expected.value.sizeBytes - |got|
  {
    var v := Judge(server(n, |got|), w, n, |got|, revision, expected);
    if v.Take? && |got + v.bytes| < v.ref.sizeBytes {
      LaterIsNotDescribed(server, w, digest, n + 1, got + v.bytes, Some(v.revision), Some(v.ref));
    }
  }

  /** Why an answer is refused: the first of the checks that it fails. */
  lemma RefusalExactly(a: ArtifactAnswer, w: Wanted, n: nat, offset: nat, revision: Option<nat>, expected: Option<Ref>)
    requires a.ArtifactAnswer?
    ensures var v := Judge(a, w, n, offset, revision, expected);
            && (v == Refuse(IdentityMismatch) <==>
                  a.artifact.artifactId != w.artifactId || a.artifact.identity != w.identity
                  || (revision.Some? && a.artifact.revision != revision.value))
            && (v == Refuse(RefChanged) <==>
                  a.artifact.artifactId == w.artifactId && a.artifact.identity == w.identity
                  && (revision.Some? ==> a.artifact.revision == revision.value)
                  && a.artifact.body.Stored? && expected.Some? && a.artifact.body.ref != expected.value)
            && (v == Refuse(ContentMissing) <==>
                  a.artifact.artifactId == w.artifactId && a.artifact.identity == w.identity
                  && (revision.Some? ==> a.artifact.revision == revision.value)
                  && a.artifact.body.Stored? && (expected.Some? ==> a.artifact.body.ref == expected.value)
                  && !a.content.Content?)
  {}

  predicate AnswersChunk(
      server: ArtifactServer, w: Wanted, revision: nat, ref: Ref, b: Bytes, n: nat, lo: nat, hi: nat)
  {
    LegalChunk(w, b, lo, hi) && server(n, lo) == ArtifactSlice(w, revision, ref, b, lo, hi)
  }

  ghost predicate AnswersSomeChunk(
      server: ArtifactServer, w: Wanted, revision: nat, ref: Ref, b: Bytes, n: nat, lo: nat)
  {
    exists hi: nat :: AnswersChunk(server, w, revision, ref, b, n, lo, hi)
  }

  /** The server answers each request with a slice of `b` of any legal length. */
  ghost predicate SlicesArtifact(server: ArtifactServer, w: Wanted, revision: nat, ref: Ref, b: Bytes) {
    forall n: nat, lo: nat | lo < |b| || lo == 0 :: AnswersSomeChunk(server, w, revision, ref, b, n, lo)
  }

  lemma {:induction false} SlicesDeliver(
      server: ArtifactServer, w: Wanted, revision: nat, ref: Ref, b: Bytes, n: nat, lo: nat)
    returns (ends: seq<nat>)
    requires SlicesArtifact(server, w, revision, ref, b) && (lo < |b| || lo == 0)
    ensures Delivers(server, w, revision, ref, b, n, lo, ends)
    decreases |b| - lo
  {
    assert AnswersSomeChunk(server, w, revision, ref, b, n, lo);
    var hi: nat :| AnswersChunk(server, w, revision, ref, b, n, lo, hi);
    if hi == |b| {
      ends := [hi];
    } else {
      var rest := SlicesDeliver(server, w, revision, ref, b, n + 1, hi);
      DeliversMore(server, w, revision, ref, b, n, lo, hi, rest);
      ends := [hi] + rest;
    }
  }

  /** Content sliced by the server with any legal lengths, the empty content included, is delivered as it was. */
  lemma ArtifactReassemblyUndoesSlicing(
      server: ArtifactServer, w: Wanted, digest: Digest, revision: Option<nat>, found: nat, ref: Ref, b: Bytes)
    requires SlicesArtifact(server, w, found, ref, b) && (revision.Some? ==> found == revision.value)
    requires ref.sizeBytes == |b| && ref.sha256 == digest(b)
    ensures exists chunks: nat :: ArtifactRead(server, w, digest, revision) == Ok(Delivered(found, ref, chunks, b))
  {
    var ends := SlicesDeliver(server, w, found, ref, b, 0, 0);
    assert DeliversAll(server, w, found, ref, |ends|, b);
    ArtifactReadExactlyWhenServed(server, w, digest, revision, found, ref, |ends|, b);
  }

  /** `readArtifact`; the `digest` object is the bytes it was given. */
  method ReadArtifact(server: ArtifactServer, w: Wanted, digest: Digest, wantedRevision: Option<nat>)
    returns (r: Result<Report, ArtifactFailure>)
    ensures r == ArtifactRead(server, w, digest, wantedRevision)
  {
    var revision := wantedRevision;
    var offset: nat := 0;
    var expected: Option<Ref> := None;
    var chunks: nat := 0;
    var digested: Bytes := [];
    while true
      invariant offset == |digested| && (expected.Some? ==> offset < expected.value.sizeBytes)
      invariant ArtifactRead(server, w, digest, wantedRevision)
             == Deliver(server, w, digest, chunks, digested, revision, expected)
      decreases if expected.None? then 1 else 0, if expected.None? then 0 else expected.value.sizeBytes - offset
    {
      var answer := server(chunks, offset);
      if answer.ArtifactQueryFails? {
        return Err(ArtifactQueryFailed);
      }
      if answer.NoArtifact? {
        return Err(ArtifactInvalid);
      }
      var artifact, content := answer.artifact, answer.content;
      if !Matches(artifact, w, revision) {
        return Err(IdentityMismatch);
      }
      if artifact.body.Elsewhere? {
        if !content.NoContent? || chunks > 0 {
          return Err(ContentInvalid);
        }
        return Ok(Described(artifact.revision));
      }
      revision := Some(artifact.revision);
      var ref := artifact.body.ref;
      if expected.Some? && ref != expected.value {
        return Err(RefChanged);
      }
      expected := Some(ref);
      if !content.Content? {
        return Err(ContentMissing);
      }
      var chunk := content.chunk;
      if !ChunkDescribed(chunk, ref, offset) {
        return Err(ContentInvalid);
      }
      var next := offset + |chunk.bytes.value|;
      if |chunk.bytes.value| > w.chunkBytes || next > ref.sizeBytes
         || (next < ref.sizeBytes && (chunk.bytes.value == [] || chunk.next != NextAt(next)))
         || (next == ref.sizeBytes && chunk.next != NoNext)
      {
        return Err(ContentInvalid);
      }
      digested := digested + chunk.bytes.value;
      chunks := chunks + 1;
      if next == ref.sizeBytes {
        if digest(digested) != ref.sha256 {
          return Err(ArtifactDigestMismatch);
        }
        return Ok(Delivered(artifact.revision, ref, chunks, digested));
      }
      offset := next;
    }
  }
}
