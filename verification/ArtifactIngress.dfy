/**
 The idempotent upload of one remote archive: binding, chunked ingest, replay.
 Models src/wbcz/m11_reports.py, BinaryArtifactIngress and its binding store.

 SHA-256 is an injective digest. The artifact store, the free-disk probe, the binding
 store's update and the random artifact id are inputs of each call. Any call may fail at
 any of them; Restart loses what the process held in memory.
 */
module ArtifactIngress {
  import opened Common

  type bytes = seq<byte>

  datatype Digest = Sha256(preimage: bytes)

  datatype UploadState = PREPARED | CONFLICT | COMPLETED

  datatype Binding = Binding(
    uploadId: string, reportJobId: string, remoteResultId: string, remoteResultPartId: Option<string>,
    productGroupCode: Option<string>, expectedArchiveSize: Option<int>,
    state: UploadState, finalizedArtifactId: Option<string>, observedByteSize: Option<nat>, observedSha: Option<Digest>)

  datatype Artifact = Artifact(artifactId: string, byteSize: nat, sha: Digest, mime: Option<string>)

  datatype IngressError =
    | UnknownUpload | JobMismatch | ResultMismatch | PartMismatch | DiskFull | ChunkNotBytes | ChunksFailed
    | DownloadCeilingExceeded | TempCeilingExceeded | FinalizedArtifactMissing | ReplayedBytesDiffer
    | ArchiveSizeDiffers | StoreFailed | StoreMismatch | UpdateFailed | InvalidOpaqueId | DuplicateUploadId

  /** One item of the chunk iterable. */
  datatype Piece = Data(data: bytes) | NotBytes | IterationFails

  datatype Request = Request(uploadId: string, reportJobId: string, remoteResultId: string,
                             remoteResultPartId: Option<string>, pieces: seq<Piece>, mime: Option<string>)

  datatype UpdateReply = Updated | RaisedBeforeWriting | RaisedAfterWriting

  /** The answers of the outside world to one ingest call. */
  datatype Outside = Outside(
    diskFree: bool,
    visible: set<string>,             // the artifact ids finalized_lookup finds
    newArtifactId: string,
    stored: Option<(nat, Digest)>,    // what put_file reports, or None when it raises
    update: UpdateReply)              // how the binding store's update ends

  function Joined(pieces: seq<Piece>): bytes {
    if pieces == [] then []
    else
      var last := pieces[|pieces| - 1];
      Joined(pieces[..|pieces| - 1]) + if last.Data? then last.data else []
  }

  ghost predicate AllData(pieces: seq<Piece>) {
    forall i :: 0 <= i < |pieces| ==> pieces[i].Data?
  }

  /** Taken one after the other, from the front, the pieces are exactly the bytes. */
  ghost predicate Splits(pieces: seq<Piece>, b: bytes) {
    if pieces == [] then b == []
    else pieces[0].Data? && pieces[0].data <= b && Splits(pieces[1..], b[|pieces[0].data|..])
  }

  lemma JoinedOne(piece: Piece)
    ensures Joined([piece]) == if piece.Data? then piece.data else []
  {
    assert [piece][..0] == [];
  }

  lemma {:induction false} JoinedConcat(a: seq<Piece>, b: seq<Piece>)
    ensures Joined(a + b) == Joined(a) + Joined(b)
  {
    if b == [] {
      assert a + b == a;
    } else {
      JoinedConcat(a, b[..|b| - 1]);
      assert (a + b)[..|a + b| - 1] == a + b[..|b| - 1];
    }
  }

  /** Every piece lies where the pieces before it end. */
  lemma PieceLiesInOrder(pieces: seq<Piece>, i: nat)
    requires i < |pieces| && pieces[i].Data?
    ensures var start := |Joined(pieces[..i])|;
            start + |pieces[i].data| <= |Joined(pieces)|
            && Joined(pieces)[start..start + |pieces[i].data|] == pieces[i].data
  {
    JoinedConcat(pieces[..i], pieces[i..]);
    JoinedConcat([pieces[i]], pieces[i + 1..]);
    JoinedOne(pieces[i]);
    assert pieces == pieces[..i] + pieces[i..] && pieces[i..] == [pieces[i]] + pieces[i + 1..];
  }

  /** The pieces split some bytes exactly when all are data and they join to those bytes. */
  lemma {:induction false} SplitsIffJoined(pieces: seq<Piece>, b: bytes)
    ensures Splits(pieces, b) <==> AllData(pieces) && Joined(pieces) == b
  {
    if pieces != [] {
      var first, rest := pieces[0], pieces[1..];
      JoinedConcat([first], rest);
      JoinedOne(first);
      assert pieces == [first] + rest;
      if first.Data? {
        if first.data <= b {
          SplitsIffJoined(rest, b[|first.data|..]);
          assert b == first.data + b[|first.data|..];
        }
        assert AllData(pieces) <==> AllData(rest);
        if Joined(pieces) == b {
          assert b[|first.data|..] == Joined(rest) && b[..|first.data|] == first.data;
        }
      }
    }
  }

  lemma {:induction false} JoinedGrows(pieces: seq<Piece>, k: nat)
    requires k <= |pieces|
    ensures |Joined(pieces[..k])| <= |Joined(pieces)|
  {
    if k < |pieces| {
      JoinedGrows(pieces[..|pieces| - 1], k);
      assert pieces[..|pieces| - 1][..k] == pieces[..k];
    } else {
      assert pieces[..k] == pieces;
    }
  }

  predicate OpaqueChar(c: char) {
    'A' <= c <= 'Z' || 'a' <= c <= 'z' || '0' <= c <= '9' || c in "._:-"
  }

  predicate OpaqueId(id: string) {
    1 <= |id| <= 256 && forall i :: 0 <= i < |id| ==> OpaqueChar(id[i])
  }

  type Issued = map<string, (Artifact, bytes)>

  /** Every artifact stands for exactly its bytes, within both ceilings. */
  ghost predicate IssuedOk(issued: Issued, downloadCeiling: nat, tempCeiling: nat) {
    forall id :: id in issued ==>
      var (artifact, data) := issued[id];
      artifact.artifactId == id && artifact.byteSize == |data| && artifact.sha == Sha256(data)
      && |data| <= downloadCeiling && |data| <= tempCeiling
  }

  /** The cache holds issued artifacts, and the bound one where the binding is completed. */
  ghost predicate FinalizedOk(finalized: map<string, Artifact>, issued: Issued, bindings: map<string, Binding>) {
    forall u :: u in finalized ==>
      && finalized[u].artifactId in issued && issued[finalized[u].artifactId].0 == finalized[u]
      && (u in bindings && bindings[u].state == COMPLETED ==>
            bindings[u].finalizedArtifactId == Some(finalized[u].artifactId))
  }

  ghost predicate BindingOk(binding: Binding, issued: Issued) {
    binding.state == COMPLETED ==>
      && binding.finalizedArtifactId.Some? && binding.finalizedArtifactId.value in issued
      && (binding.expectedArchiveSize.Some? ==>
            binding.expectedArchiveSize.value == |issued[binding.finalizedArtifactId.value].1|)
  }

  ghost predicate BindingsOk(bindings: map<string, Binding>, issued: Issued) {
    forall u :: u in bindings ==> BindingOk(bindings[u], issued)
  }

  /** A return names a completed upload, its artifact and that artifact's bytes. */
  ghost predicate Completed(call: (string, bytes, Artifact), bindings: map<string, Binding>, issued: Issued) {
    var (u, data, artifact) := call;
    && u in bindings && bindings[u].state == COMPLETED && bindings[u].finalizedArtifactId == Some(artifact.artifactId)
    && artifact.artifactId in issued && issued[artifact.artifactId] == (artifact, data)
  }

  ghost predicate ReturnsOk(calls: seq<(string, bytes, Artifact)>, bindings: map<string, Binding>, issued: Issued) {
    forall k :: 0 <= k < |calls| ==> Completed(calls[k], bindings, issued)
  }

  /** The artifact measures its bytes, which respect both ceilings and the expected size. */
  ghost predicate WithinBounds(call: (string, bytes, Artifact), bindings: map<string, Binding>,
                               downloadCeiling: nat, tempCeiling: nat)
  {
    var (u, data, artifact) := call;
    && artifact.byteSize == |data| && artifact.sha == Sha256(data)
    && |data| <= downloadCeiling && |data| <= tempCeiling
    && u in bindings && (bindings[u].expectedArchiveSize.Some? ==> bindings[u].expectedArchiveSize.value == |data|)
  }

  /** All returning calls for one upload carried the same bytes, however chunked, and got the same artifact. */
  lemma ReturnsAgree(calls: seq<(string, bytes, Artifact)>, bindings: map<string, Binding>, issued: Issued,
                     downloadCeiling: nat, tempCeiling: nat, i: nat, j: nat)
    requires IssuedOk(issued, downloadCeiling, tempCeiling) && BindingsOk(bindings, issued)
             && ReturnsOk(calls, bindings, issued)
    requires i < |calls| && j < |calls| && calls[i].0 == calls[j].0
    ensures calls[i] == calls[j]
    ensures WithinBounds(calls[i], bindings, downloadCeiling, tempCeiling)
  {
    assert Completed(calls[i], bindings, issued) && Completed(calls[j], bindings, issued);
  }

  /** Issuing under a new id and completing one open binding with it keep everything that was completed. */
  lemma IssueKeeps(issued: Issued, bindings: map<string, Binding>, calls: seq<(string, bytes, Artifact)>,
                   id: string, entry: (Artifact, bytes))
    requires id !in issued && BindingsOk(bindings, issued) && ReturnsOk(calls, bindings, issued)
    ensures BindingsOk(bindings, issued[id := entry]) && ReturnsOk(calls, bindings, issued[id := entry])
  {
  }

  lemma CompleteKeeps(issued: Issued, bindings: map<string, Binding>, calls: seq<(string, bytes, Artifact)>,
                      u: string, binding: Binding)
    requires u in bindings && bindings[u].state != COMPLETED && BindingOk(binding, issued)
    requires BindingsOk(bindings, issued) && ReturnsOk(calls, bindings, issued)
    ensures BindingsOk(bindings[u := binding], issued) && ReturnsOk(calls, bindings[u := binding], issued)
  {
    forall k | 0 <= k < |calls| ensures Completed(calls[k], bindings[u := binding], issued) {
      assert Completed(calls[k], bindings, issued);
    }
  }

  lemma CacheKeeps(finalized: map<string, Artifact>, issued: Issued, bindings: map<string, Binding>, u: string,
                   artifact: Artifact, data: bytes)
    requires FinalizedOk(finalized, issued, bindings) && artifact.artifactId !in issued
    requires u in bindings && bindings[u].state != COMPLETED
    ensures FinalizedOk(finalized[u := artifact], issued[artifact.artifactId := (artifact, data)], bindings)
  {
  }

  lemma BindKeepsCache(finalized: map<string, Artifact>, issued: Issued, bindings: map<string, Binding>, u: string,
                       binding: Binding)
    requires FinalizedOk(finalized, issued, bindings)
    requires binding.state == COMPLETED ==>
               u in finalized && binding.finalizedArtifactId == Some(finalized[u].artifactId)
    ensures FinalizedOk(finalized, issued, bindings[u := binding])
  {
  }

  /** Only the state and what was observed of a binding ever change. */
  ghost predicate SameUpload(a: Binding, b: Binding) {
    b == a.(state := b.state, finalizedArtifactId := b.finalizedArtifactId, observedByteSize := b.observedByteSize,
            observedSha := b.observedSha)
  }

  class BinaryArtifactIngress {
    const downloadCeiling: nat
    const tempCeiling: nat
    var bindings: map<string, Binding>
    var finalized: map<string, Artifact>

    /** The artifacts made, by id, with their bytes: what finalized_lookup looks into. */
    var issued: map<string, (Artifact, bytes)>

    /** Every call of ingest that returned. */
    ghost var completions: seq<(string, bytes, Artifact)>

    constructor (downloadCeiling: nat, tempCeiling: nat)
      requires 0 < downloadCeiling && 0 < tempCeiling
      ensures Valid() && bindings == map[] && issued == map[] && completions == []
      ensures this.downloadCeiling == downloadCeiling && this.tempCeiling == tempCeiling
    {
      this.downloadCeiling, this.tempCeiling := downloadCeiling, tempCeiling;
      bindings, finalized, issued, completions := map[], map[], map[], [];
    }

    ghost predicate Valid()
      reads this
    {
      && IssuedOk(issued, downloadCeiling, tempCeiling)
      && FinalizedOk(finalized, issued, bindings)
      && BindingsOk(bindings, issued)
      && ReturnsOk(completions, bindings, issued)
    }

    method Prepare(uploadId: string, reportJobId: string, remoteResultId: string,
                   remoteResultPartId: Option<string>, productGroupCode: Option<string>,
                   expectedArchiveSize: Option<int>)
      returns (r: Result<Binding, IngressError>)
      requires Valid()
      modifies this
      ensures Valid() && issued == old(issued) && completions == old(completions)
      ensures r.Ok? <==> OpaqueId(reportJobId) && OpaqueId(remoteResultId)
                         && (remoteResultPartId.Some? ==> OpaqueId(remoteResultPartId.value))
                         && uploadId !in old(bindings)
      ensures r.Ok? ==>
                && bindings == old(bindings)[uploadId := r.value]
                && r.value == Binding(uploadId, reportJobId, remoteResultId, remoteResultPartId, productGroupCode,
                                      expectedArchiveSize, PREPARED, None, None, None)
      ensures r.Err? ==> bindings == old(bindings)
    {
      if !OpaqueId(reportJobId) || !OpaqueId(remoteResultId)
         || (remoteResultPartId.Some? && !OpaqueId(remoteResultPartId.value)) {
        return Err(InvalidOpaqueId);
      }
      if uploadId in bindings {
        return Err(DuplicateUploadId);
      }
      var binding := Binding(uploadId, reportJobId, remoteResultId, remoteResultPartId, productGroupCode,
                             expectedArchiveSize, PREPARED, None, None, None);
      bindings := bindings[uploadId := binding];
      return Ok(binding);
    }

    /** The process ends and starts again: bindings are durable, the finalized cache is not. */
    method Restart()
      requires Valid()
      modifies this
      ensures Valid() && bindings == old(bindings) && issued == old(issued) && completions == old(completions)
              && finalized == map[]
    {
      finalized := map[];
    }

    /** The loop over the chunks: the ceilings are checked as the size grows. */
    method Receive(pieces: seq<Piece>) returns (r: Result<bytes, IngressError>)
      ensures r.Ok? <==> AllData(pieces) && |Joined(pieces)| <= downloadCeiling && |Joined(pieces)| <= tempCeiling
      ensures r.Ok? ==> r.value == Joined(pieces) && Splits(pieces, r.value)
    {
      SplitsIffJoined(pieces, Joined(pieces));
      var data: bytes := [];
      assert pieces[..0] == [];
      for n := 0 to |pieces|
        invariant AllData(pieces[..n]) && data == Joined(pieces[..n])
        invariant |data| <= downloadCeiling && |data| <= tempCeiling
      {
        assert pieces[..n + 1] == pieces[..n] + [pieces[n]];
        JoinedGrows(pieces, n + 1);
        match pieces[n] {
          case NotBytes => return Err(ChunkNotBytes);
          case IterationFails => return Err(ChunksFailed);
          case Data(chunk) =>
            if |data| + |chunk| > downloadCeiling {
              return Err(DownloadCeilingExceeded);
            }
            if |data| + |chunk| > tempCeiling {
              return Err(TempCeilingExceeded);
            }
            data := data + chunk;
        }
      }
      assert pieces[..|pieces|] == pieces;
      return Ok(data);
    }

    ghost predicate Addressed(request: Request)
      reads this
    {
      && request.uploadId in bindings
      && bindings[request.uploadId].reportJobId == request.reportJobId
      && bindings[request.uploadId].remoteResultId == request.remoteResultId
      && bindings[request.uploadId].remoteResultPartId == request.remoteResultPartId
    }

    ghost predicate Received(request: Request, out: Outside)
      reads this
    {
      && out.diskFree && AllData(request.pieces)
      && |Joined(request.pieces)| <= downloadCeiling && |Joined(request.pieces)| <= tempCeiling
    }

    /** A replay succeeds exactly when the artifact can be found and the bytes are its bytes. */
    ghost predicate Replays(request: Request, out: Outside)
      requires Valid() && request.uploadId in bindings && bindings[request.uploadId].state == COMPLETED
      reads this
    {
      var id := bindings[request.uploadId].finalizedArtifactId.value;
      (request.uploadId in finalized || (id != "" && id in out.visible)) && issued[id].1 == Joined(request.pieces)
    }

    /** A first completion succeeds exactly when the size is the expected one and every store obliges. */
    ghost predicate Completes(request: Request, out: Outside)
      requires request.uploadId in bindings
      reads this
    {
      var data, expected := Joined(request.pieces), bindings[request.uploadId].expectedArchiveSize;
      && (expected.Some? ==> expected.value == |data|)
      && out.stored == Some((|data|, Sha256(data))) && out.update == Updated
    }

    /** An upload that is still open and whose received bytes have not the expected size. */
    ghost predicate Mismatches(request: Request)
      requires request.uploadId in bindings
      reads this
    {
      var expected := bindings[request.uploadId].expectedArchiveSize;
      && bindings[request.uploadId].state != COMPLETED
      && expected.Some? && expected.value != |Joined(request.pieces)|
    }

    method Ingest(request: Request, out: Outside) returns (r: Result<Artifact, IngressError>)
      requires Valid()
      requires out.newArtifactId !in issued && out.newArtifactId != ""
      modifies this
      ensures Valid()
      ensures r.Ok? <==>
                old(Addressed(request)) && old(Received(request, out))
                && if old(bindings)[request.uploadId].state == COMPLETED then old(Replays(request, out))
                   else old(Completes(request, out))
      ensures completions ==
                old(completions) + if r.Ok? then [(request.uploadId, Joined(request.pieces), r.value)] else []
      ensures forall id :: id in issued ==> id in old(issued) || id == out.newArtifactId
      ensures forall u :: u in old(bindings) ==> u in bindings
      ensures forall u :: u in old(bindings) && (old(bindings)[u].state == COMPLETED || u != request.uploadId) ==>
                bindings[u] == old(bindings)[u]
      ensures r.Ok? ==>
                && bindings[request.uploadId].state == COMPLETED
                && bindings[request.uploadId].finalizedArtifactId == Some(r.value.artifactId)
      ensures r.Ok? ==> Splits(request.pieces, completions[|completions| - 1].1)
      ensures r.Ok? && old(bindings)[request.uploadId].state != COMPLETED ==> request.uploadId in finalized
      ensures forall u :: u in old(bindings) ==> u in bindings && SameUpload(old(bindings)[u], bindings[u])
      ensures forall u :: u in old(finalized) ==> u in finalized
      ensures forall id :: id in old(issued) ==> id in issued && issued[id] == old(issued)[id]
      ensures !(old(Addressed(request)) && old(Received(request, out))) ==>
                bindings == old(bindings) && issued == old(issued) && finalized == old(finalized)
      ensures old(Addressed(request)) && old(Received(request, out)) && old(Mismatches(request)) ==>
                && r == Err(ArchiveSizeDiffers) && issued == old(issued) && finalized == old(finalized)
                && bindings == if out.update == RaisedBeforeWriting then old(bindings)
                               else old(bindings)[request.uploadId := old(bindings)[request.uploadId].(
                                      state := CONFLICT, observedByteSize := Some(|Joined(request.pieces)|),
                                      observedSha := Some(Sha256(Joined(request.pieces))))]
    {
      hide BindingsOk, ReturnsOk, FinalizedOk, IssuedOk, Splits;
      SplitsIffJoined(request.pieces, Joined(request.pieces));
      var u := request.uploadId;
      if u !in bindings {
        return Err(UnknownUpload);
      }
      var binding := bindings[u];
      if binding.reportJobId != request.reportJobId {
        return Err(JobMismatch);
      }
      if binding.remoteResultId != request.remoteResultId {
        return Err(ResultMismatch);
      }
      if binding.remoteResultPartId != request.remoteResultPartId {
        return Err(PartMismatch);
      }
      if !out.diskFree {
        return Err(DiskFull);
      }
      var received := Receive(request.pieces);
      if received.Err? {
        return Err(received.error);
      }
      var data := received.value;
      if binding.state == COMPLETED {
        r := Replay(request, out, data);
        return;
      }
      if binding.expectedArchiveSize.Some? && binding.expectedArchiveSize.value != |data| {
        if out.update != RaisedBeforeWriting {
          var conflict :=
            binding.(state := CONFLICT, observedByteSize := Some(|data|), observedSha := Some(Sha256(data)));
          CompleteKeeps(issued, bindings, completions, u, conflict);
          BindKeepsCache(finalized, issued, bindings, u, conflict);
          bindings := bindings[u := conflict];
        }
        return Err(ArchiveSizeDiffers);
      }
      r := Finalize(request, out, data);
    }

    method Replay(request: Request, out: Outside, data: bytes) returns (r: Result<Artifact, IngressError>)
      requires Valid() && request.uploadId in bindings && bindings[request.uploadId].state == COMPLETED
      requires data == Joined(request.pieces)
      modifies `completions
      ensures Valid()
      ensures r.Ok? <==> old(Replays(request, out))
      ensures r.Ok? ==> bindings[request.uploadId].finalizedArtifactId == Some(r.value.artifactId)
      ensures completions == old(completions) + if r.Ok? then [(request.uploadId, data, r.value)] else []
    {
      var u, id := request.uploadId, bindings[request.uploadId].finalizedArtifactId;
      var existing: Option<Artifact> := None;
      if u in finalized {
        existing := Some(finalized[u]);
      } else if id.Some? && id.value != "" && id.value in out.visible && id.value in issued {
        existing := Some(issued[id.value].0);
      }
      if existing.None? {
        return Err(FinalizedArtifactMissing);
      }
      if existing.value.byteSize == |data| && existing.value.sha == Sha256(data) {
        completions := completions + [(u, data, existing.value)];
        return Ok(existing.value);
      }
      return Err(ReplayedBytesDiffer);
    }

    method Finalize(request: Request, out: Outside, data: bytes) returns (r: Result<Artifact, IngressError>)
      requires Valid() && request.uploadId in bindings && bindings[request.uploadId].state != COMPLETED
      requires data == Joined(request.pieces) && |data| <= downloadCeiling && |data| <= tempCeiling
      requires var expected := bindings[request.uploadId].expectedArchiveSize;
               expected.Some? ==> expected.value == |data|
      requires out.newArtifactId !in issued
      modifies this
      ensures Valid()
      ensures r.Ok? <==> old(Completes(request, out))
      ensures completions == old(completions) + if r.Ok? then [(request.uploadId, data, r.value)] else []
      ensures bindings.Keys == old(bindings).Keys
      ensures forall id :: id in issued ==> id in old(issued) || id == out.newArtifactId
      ensures forall u :: u in old(bindings) && u != request.uploadId ==> bindings[u] == old(bindings)[u]
      ensures r.Ok? ==> request.uploadId in finalized
      ensures forall u :: u in old(bindings) ==> u in bindings && SameUpload(old(bindings)[u], bindings[u])
      ensures forall u :: u in old(finalized) ==> u in finalized
      ensures forall id :: id in old(issued) ==> id in issued && issued[id] == old(issued)[id]
      ensures r.Ok? ==>
                && bindings[request.uploadId].state == COMPLETED
                && bindings[request.uploadId].finalizedArtifactId == Some(r.value.artifactId)
    {
      hide BindingsOk, ReturnsOk, FinalizedOk, IssuedOk;
      var u := request.uploadId;
      if out.stored.None? {
        return Err(StoreFailed);
      }
      if out.stored.value != (|data|, Sha256(data)) {
        return Err(StoreMismatch);
      }
      var artifact := Artifact(out.newArtifactId, |data|, Sha256(data), request.mime);
      Issue(u, artifact, data);
      if out.update == RaisedBeforeWriting {
        return Err(UpdateFailed);
      }
      Complete(u, artifact, data);
      if out.update == RaisedAfterWriting {
        return Err(UpdateFailed);
      }
      ReturnKeeps(issued, bindings, completions, (u, data, artifact));
      completions := completions + [(u, data, artifact)];
      return Ok(artifact);
    }

    /** A new artifact exists and is cached for its upload. */
    method Issue(u: string, artifact: Artifact, data: bytes)
      requires Valid() && u in bindings && bindings[u].state != COMPLETED && artifact.artifactId !in issued
      requires artifact.byteSize == |data| <= downloadCeiling && |data| <= tempCeiling && artifact.sha == Sha256(data)
      modifies `issued, `finalized
      ensures Valid()
      ensures issued == old(issued)[artifact.artifactId := (artifact, data)]
      ensures finalized == old(finalized)[u := artifact]
    {
      IssueKeeps(issued, bindings, completions, artifact.artifactId, (artifact, data));
      CacheKeeps(finalized, issued, bindings, u, artifact, data);
      hide BindingsOk, ReturnsOk, FinalizedOk;
      issued := issued[artifact.artifactId := (artifact, data)];
      finalized := finalized[u := artifact];
    }

    /** The binding names its artifact and is completed. */
    method Complete(u: string, artifact: Artifact, data: bytes)
      requires Valid() && u in bindings && bindings[u].state != COMPLETED
      requires artifact.artifactId in issued && issued[artifact.artifactId] == (artifact, data)
      requires u in finalized && finalized[u] == artifact
      requires bindings[u].expectedArchiveSize.Some? ==> bindings[u].expectedArchiveSize.value == |data|
      modifies `bindings
      ensures Valid()
      ensures bindings == old(bindings)[u := old(bindings)[u].(
                state := COMPLETED, finalizedArtifactId := Some(artifact.artifactId),
                observedByteSize := Some(|data|), observedSha := Some(Sha256(data)))]
    {
      hide BindingsOk, ReturnsOk, FinalizedOk, IssuedOk;
      var completed := bindings[u].(
        state := COMPLETED, finalizedArtifactId := Some(artifact.artifactId),
        observedByteSize := Some(|data|), observedSha := Some(Sha256(data)));
      CompleteKeeps(issued, bindings, completions, u, completed);
      BindKeepsCache(finalized, issued, bindings, u, completed);
      bindings := bindings[u := completed];
    }
  }

  lemma ReturnKeeps(issued: Issued, bindings: map<string, Binding>, calls: seq<(string, bytes, Artifact)>,
                    call: (string, bytes, Artifact))
    requires ReturnsOk(calls, bindings, issued) && Completed(call, bindings, issued)
    ensures ReturnsOk(calls + [call], bindings, issued)
  {
  }

  /**
   The same bytes, cut into other pieces and sent again to the same upload, give the same artifact, as long as it is
   cached or finalized_lookup finds it.
   */
  method Resend(ingress: BinaryArtifactIngress, first: Request, firstOut: Outside, second: Request, secondOut: Outside,
                ghost data: bytes)
    returns (a: Result<Artifact, IngressError>, b: Result<Artifact, IngressError>)
    requires ingress.Valid() && Splits(first.pieces, data) && Splits(second.pieces, data)
    requires second == first.(pieces := second.pieces, mime := second.mime)
    requires firstOut.newArtifactId !in ingress.issued && firstOut.newArtifactId != ""
    requires secondOut.newArtifactId !in ingress.issued && secondOut.newArtifactId != ""
    requires firstOut.newArtifactId != secondOut.newArtifactId && secondOut.diskFree
    modifies ingress
    ensures ingress.Valid()
    ensures a.Ok? ==> first.uploadId in old(ingress.bindings)
    ensures a.Ok? && (|| old(ingress.bindings)[first.uploadId].state != COMPLETED
                      || first.uploadId in old(ingress.finalized)
                      || (a.value.artifactId != "" && a.value.artifactId in secondOut.visible)) ==>
              b == a
  {
    hide IssuedOk, FinalizedOk, BindingsOk, ReturnsOk, Splits, WithinBounds;
    SplitsIffJoined(first.pieces, data);
    SplitsIffJoined(second.pieces, data);
    a := ingress.Ingest(first, firstOut);
    ghost var middle := ingress.completions;
    if a.Ok? {
      CompletedBytes(middle, ingress.bindings, ingress.issued, |middle| - 1);
      assert ingress.Addressed(second);
      assert AllData(second.pieces) && Joined(second.pieces) == Joined(first.pieces);
      assert ingress.Received(second, secondOut);
      ghost var id := a.value.artifactId;
      assert ingress.Replays(second, secondOut) <==>
               (second.uploadId in ingress.finalized || (id != "" && id in secondOut.visible));
    }
    b := ingress.Ingest(second, secondOut);
    if a.Ok? && b.Ok? {
      ReturnsAgree(ingress.completions, ingress.bindings, ingress.issued, ingress.downloadCeiling, ingress.tempCeiling,
                   |middle| - 1, |middle|);
    }
  }

  lemma CompletedBytes(calls: seq<(string, bytes, Artifact)>, bindings: map<string, Binding>, issued: Issued, k: nat)
    requires ReturnsOk(calls, bindings, issued) && k < |calls|
    ensures Completed(calls[k], bindings, issued)
  {
  }

  // ---------- Runs ----------

  datatype Step =
    | Preparing(uploadId: string, reportJobId: string, remoteResultId: string, remoteResultPartId: Option<string>,
                productGroupCode: Option<string>, expectedArchiveSize: Option<int>)
    | Ingesting(request: Request, out: Outside)
    | Restarting

  /** uuid4 never gives an artifact id twice. */
  ghost predicate FreshIds(steps: seq<Step>, issued: Issued) {
    && (forall i :: 0 <= i < |steps| && steps[i].Ingesting? ==>
          steps[i].out.newArtifactId != "" && steps[i].out.newArtifactId !in issued)
    && (forall i, j :: 0 <= i < j < |steps| && steps[i].Ingesting? && steps[j].Ingesting? ==>
          steps[i].out.newArtifactId != steps[j].out.newArtifactId)
  }

  /**
   Any run of prepares, ingests and restarts, whatever fails in between: a completed upload stays as
   it is, and all calls that ever returned for one upload carried the same bytes and got the same artifact.
   */
  method Run(ingress: BinaryArtifactIngress, steps: seq<Step>)
    requires ingress.Valid() && FreshIds(steps, ingress.issued)
    modifies ingress
    ensures ingress.Valid() && old(ingress.completions) <= ingress.completions
    ensures forall u :: u in old(ingress.bindings) && old(ingress.bindings)[u].state == COMPLETED ==>
              u in ingress.bindings && ingress.bindings[u] == old(ingress.bindings)[u]
    ensures forall i, j | 0 <= i < |ingress.completions| && 0 <= j < |ingress.completions|
              && ingress.completions[i].0 == ingress.completions[j].0 ::
              ingress.completions[i] == ingress.completions[j]
    ensures forall i :: 0 <= i < |ingress.completions| ==>
              WithinBounds(ingress.completions[i], ingress.bindings, ingress.downloadCeiling, ingress.tempCeiling)
  {
    hide IssuedOk, FinalizedOk, BindingsOk, ReturnsOk, WithinBounds;
    for n := 0 to |steps|
      invariant ingress.Valid() && old(ingress.completions) <= ingress.completions
      invariant forall u :: u in old(ingress.bindings) && old(ingress.bindings)[u].state == COMPLETED ==>
                  u in ingress.bindings && ingress.bindings[u] == old(ingress.bindings)[u]
      invariant forall id :: id in ingress.issued ==>
                  || id in old(ingress.issued)
                  || exists k :: 0 <= k < n && steps[k].Ingesting? && steps[k].out.newArtifactId == id
    {
      match steps[n] {
        case Preparing(u, job, result, part, group, size) =>
          var _ := ingress.Prepare(u, job, result, part, group, size);
        case Ingesting(request, out) =>
          var _ := ingress.Ingest(request, out);
        case Restarting =>
          ingress.Restart();
      }
    }
    forall i, j | 0 <= i < |ingress.completions| && 0 <= j < |ingress.completions|
      && ingress.completions[i].0 == ingress.completions[j].0
      ensures ingress.completions[i] == ingress.completions[j]
      ensures WithinBounds(ingress.completions[i], ingress.bindings, ingress.downloadCeiling, ingress.tempCeiling)
    {
      ReturnsAgree(ingress.completions, ingress.bindings, ingress.issued, ingress.downloadCeiling, ingress.tempCeiling,
                   i, j);
    }
  }
}
