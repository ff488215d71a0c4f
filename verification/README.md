# Verified model of the wbcz cores

A Dafny model of the stateful and structural parts of the wbcz agent and backend, with proofs of
what they promise over all inputs and all runs. `dafny verify dfyconfig.toml` checks everything.

| file | what it models |
|---|---|
| `PhysicalPrinting.dfy` | the durable replay table, the runtime that drives one physical print execution, and the Windows spooler, as a class over a ghost log of everything that outlives a call |
| `Raster.dfy` | the conversion of a label image into the bottom-up BGR bitmap handed to Windows |
| `AggregateTree.dfy` | the bounded depth-first walk over an arbitrary parent/child graph |
| `Reaggregation.dfy` | the preconditions of adding or removing children, and the reconciliation read back afterwards |
| `ArtifactCipher.dfy` | the framed authenticated stream, its writer and its reader |
| `ArtifactIngress.dfy` | the idempotent upload of one remote archive |
| `RateLimits.dfy` | two sliding-window limiters and the spacing limiter |
| `Sanitizers.dfy` | the two evidence sanitizers |
| `Events.dfy`, `EventStore.dfy` | events, their identity and order; the store over runs of imports, checks and document updates; the document tracker |
| `Percent.dfy`, `EdoReads.dfy` | UTF-8, percent-encoding and form queries; the typed EDO read requests, their builder and the guard |
| `EdoReadLaws.dfy`, `EdoGuardLaws.dfy` | the laws between builder and guard; what the guard accepts and refuses, and what the validator does, spelled out |
| `Common.dfy` | shared datatypes |

How the outside world enters: every answer of a party the code calls (Windows, a callback, SQLite
and fsync, the artifact store, the clock) is an input of the operation, unconstrained unless a
contract says otherwise. A crash of the print process is an exception no handler catches; it can
strike before or after every commit and inside every call, and a restart is the next call on the
same store. AES-GCM is any pair of functions ideal for the streams written honestly
(`IdealIsPossible` shows such a pair exists); SHA-256 is injective; numbers of seconds are reals.

Where the code falls short of what is written about it:

- `docs/PRINTING_PHYSICAL_SPOOL.md:216-224` says `FAILED_PRE_SPOOL` means no Windows job was
  created. The code records it over an existing job when the report made by `on_job_created` raises
  `DefinitePreSpoolFailure` (`src/wbcz/physical_printing.py:1091-1109`, caught at 1117), and, while the
  calls into Windows raise nothing of this module's own, only then (`JobDeniedIffCallbackRaisesDefinite`,
  and `Execute` in both directions). `RunRefusedReport` is such a run. The raster check after StartPage
  (`src/wbcz/physical_printing.py:741-742`) is not a second cause: the decoder has refused a malformed
  raster before anything was recorded (`src/wbcz/printing.py:660-661`, `Prepare`). It matters only to a
  caller that hands `submit` an unchecked raster (`SubmitDeniesJobIff`).
- `UNKNOWN_AFTER_SPOOL` stands without a job exactly when a call before StartDoc returns raises
  `AmbiguousAfterSpool` (`UnknownWithoutJobIff`); none of the repository's own code does so.
- `AgentPhysicalReplayStore.record` alone does not keep an execution irreversible: it goes to
  `BLOCKED` and then to `RENDERED_VERIFIED` (`RecordAloneWouldReopen`). The runtime as a whole does
  keep it so, which is an invariant over the log.
- A stream written under the empty key version is refused by every reader (`RoundTrip`).
- An INN with a character that is a digit for `str.isdigit` but not for `\d` passes validator and
  builder and is refused by the guard (`GuardRefusesSuperscriptInn`); nothing else is
  (`GuardAcceptsBuiltIff`).
- The guard does not look at the length of ids or for NUL, so it accepts targets no payload is built
  into; it is exactly these (`AcceptedStandsForPayload`, `GuardAcceptsOverlongId`).

## Model

| member | source | states |
|---|---|---|
| PhysicalPrinting.HistoryIsTruthful | src/wbcz/physical_printing.py:993-1215 | after any legal history the row of every execution tells the truth about Windows: at most one submission and one job, and each recorded state with exactly the facts it claims |
| PhysicalPrinting.HistoryOnlyMovesOnward | src/wbcz/physical_printing.py:250-253 | between any two moments of a run irreversible states stay irreversible, settled rows are frozen and no identity changes |
| PhysicalPrinting.SubmittedAtMostOnce | src/wbcz/physical_printing.py:959-961 | no run calls the spooler twice for one execution id, whatever crashed or raised |
| PhysicalPrinting.SubmittedOnlyAfterTheBoundary | src/wbcz/physical_printing.py:1063-1072 | every submission is preceded by a committed SPOOL_SUBMITTING and then by a begin_spool that returned |
| PhysicalPrinting.FlagsAreEvents | src/wbcz/physical_printing.py:826-837 | the flags of an execution's facts are exactly the entries of the log where an outside party raised one of the two spool exceptions before or after a job existed |
| PhysicalPrinting.FailedPreSpoolTellsTheTruthIff | docs/PRINTING_PHYSICAL_SPOOL.md:216-224 | over any run, FAILED_PRE_SPOOL denies the existence of a job rightly if and only if the log shows nobody raising a definite pre-spool failure after one existed |
| PhysicalPrinting.UnknownMeansAJobExistsIff | src/wbcz/physical_printing.py:1136-1165 | over any run, UNKNOWN_AFTER_SPOOL means exactly one job if and only if the log shows nobody raising an ambiguous failure before one existed; its id is stored if nobody raised one after it |
| PhysicalPrinting.AcceptedMeansWindowsAccepted | src/wbcz/physical_printing.py:1177-1210 | SPOOLER_ACCEPTED means one job, its id stored, and StartPage, the full raster, EndPage and EndDoc all succeeded in that order |
| PhysicalPrinting.RecordAloneWouldReopen | src/wbcz/physical_printing.py:370-411 | record alone lets every irreversible state but SPOOLER_ACCEPTED out through BLOCKED back to RENDERED_VERIFIED |
| PhysicalPrinting.RenderDecodeVerify | src/wbcz/printing.py:658-708 | the rendered raster comes out if and only if it is well-formed and the decoder read back exactly the payload |
| PhysicalPrinting.Prepare | src/wbcz/physical_printing.py:1001-1045 | an execution goes on to its first record only with the image that was rendered, well-formed and decoded to exactly the payload; when it does is said in PreparedIffEverythingAgrees |
| PhysicalPrinting.PreparedIffEverythingAgrees | src/wbcz/physical_printing.py:1001-1045 | an execution goes on to its first record if and only if contract, execution id, payload hash, active profile, fingerprint, agent printer, square and found resolution, a well-formed raster, the bytes decoded from it, layout hash and pixel size all agree; the raster is then the rendered one with the offsets and printable area of the contract |
| PhysicalPrinting.StoppedOneWay | src/wbcz/physical_printing.py:959-991 | otherwise the first thing that disagrees decides which rejection is recorded, or that the exception passes without one |
| PhysicalPrinting.RecordRules | src/wbcz/physical_printing.py:370-411 | record refuses exactly another identity, a reopening and a change of an accepted row; a known job id or Windows status is never forgotten |
| PhysicalPrinting.NoFailureIffSucceeds | src/wbcz/physical_printing.py:757-838 | nothing leaves the spool section exactly when resolution, device, geometry, StartDoc, callback, page, raster, EndPage and EndDoc all succeed |
| PhysicalPrinting.AcceptedIffWindowsTakesAll | src/wbcz/physical_printing.py:1177-1203 | an execution that reached the spool section ends accepted exactly when Windows takes the whole document and both records commit |
| PhysicalPrinting.SubmitDeniesJobIff | src/wbcz/physical_printing.py:741-742 | submit on any raster, checked or not: a failure after the job claims to be one before it exactly for a definite failure out of the callback, or for a malformed raster on a started page |
| PhysicalPrinting.JobDeniedIffCallbackRaisesDefinite | src/wbcz/physical_printing.py:1091-1130 | in an execution, FAILED_PRE_SPOOL denies an existing job exactly when StartDoc gave one, its record committed, on_job_created raised a definite failure and the failure record committed |
| PhysicalPrinting.CallbackCanDenyAJob | src/wbcz/physical_printing.py:1104-1130 | a concrete call with a sound raster and a flawless Windows that ends in such a denial |
| PhysicalPrinting.RunRefusedReport | src/wbcz/physical_printing.py:935-991 | that call executed on a new store leaves FAILED_PRE_SPOOL over an existing job |
| PhysicalPrinting.AmbiguousWithoutJobIff | src/wbcz/physical_printing.py:1074-1116 | without a job, an ambiguous failure leaves the spool section exactly when resolution, device, geometry or StartDoc raises it |
| PhysicalPrinting.DefiniteWithoutJobIff | src/wbcz/physical_printing.py:1074-1090 | without a job, a definite failure leaves the spool section exactly when a listed answer before StartDoc is wrong |
| PhysicalPrinting.FailedWithoutJobIff | src/wbcz/physical_printing.py:1117-1130 | FAILED_PRE_SPOOL stands over no job exactly for those answers and when its record commits |
| PhysicalPrinting.AmbiguousWithJobIff | src/wbcz/physical_printing.py:792-838 | with a job, an ambiguous failure leaves the spool section exactly when its record, its report, the page, the raster, EndPage or EndDoc goes wrong |
| PhysicalPrinting.UnknownWithJobIff | src/wbcz/physical_printing.py:1136-1165 | UNKNOWN_AFTER_SPOOL stands over a job exactly for those answers and when its records commit |
| PhysicalPrinting.CodesBeforeJob | src/wbcz/physical_printing.py:757-790 | each wrong answer before a job gives the error code of its own |
| PhysicalPrinting.CodesAfterJob | src/wbcz/physical_printing.py:792-838 | so does each one after it, and the failure names the job |
| PhysicalPrinting.SpoolEndsMean | src/wbcz/physical_printing.py:1074-1215 | how the spool section ends in one statement: accepted, failed without a job, unknown without one and with one, and a job denied, each exactly for its answers |
| PhysicalPrinting.UnknownWithoutJobIff | src/wbcz/physical_printing.py:1136-1165 | UNKNOWN_AFTER_SPOOL stands without a job exactly for those answers and when its records commit |
| PhysicalPrinting.UnknownMeansOneJob | src/wbcz/physical_printing.py:1136-1165 | when none of those calls raises an ambiguous failure, UNKNOWN_AFTER_SPOOL means exactly one job, and its id is stored if no call after it raises one either |
| PhysicalPrinting.PoliteWorldsAreToldHonestly | src/wbcz/physical_printing.py:1117-1203 | with no such exceptions from callbacks and Windows, FAILED_PRE_SPOOL means no job and UNKNOWN_AFTER_SPOOL one job with its id stored |
| PhysicalPrinting.AgentPhysicalReplayStore.Record | src/wbcz/physical_printing.py:339-414 | the table stays the last committed row of every id; a refused or failed call changes nothing; other ids are untouched |
| PhysicalPrinting.AgentPhysicalReplayStore.Get | src/wbcz/physical_printing.py:319-337 | the row read is the last one committed for the id |
| PhysicalPrinting.PhysicalPrintRuntime.CrossSpoolBoundary | src/wbcz/physical_printing.py:416-432 | SPOOL_SUBMITTING is recorded only over a RENDERED_VERIFIED row of the same identity; otherwise nothing changes and it raises |
| PhysicalPrinting.PhysicalPrintRuntime.OnJobCreated | src/wbcz/physical_printing.py:1091-1109 | on a return the created job is durably recorded; other ids and other facts are untouched |
| PhysicalPrinting.PhysicalPrintRuntime.StartDocument | src/wbcz/physical_printing.py:777-790 | a job exists exactly when the geometry holds and StartDoc gives a positive id; otherwise the first failure is raised and no job exists |
| PhysicalPrinting.PhysicalPrintRuntime.PrintDocument | src/wbcz/physical_printing.py:777-838 | raises the first failure of the document, if any, and that exception explains the job and the row it leaves |
| PhysicalPrinting.PhysicalPrintRuntime.PrintPage | src/wbcz/physical_printing.py:792-823 | raises the first failure of the page, if any; the page is complete exactly when it returns, and the job and the row are left alone |
| PhysicalPrinting.PhysicalPrintRuntime.Submit | src/wbcz/physical_printing.py:757-838 | the log gains this submission; a job exists exactly when the device opens and StartDoc gives one, the first failure leaves through the handlers, and otherwise the job is returned |
| PhysicalPrinting.PhysicalPrintRuntime.Spool | src/wbcz/physical_printing.py:1074-1215 | by the answers alone: when a job exists, and when the irreversible row left is SPOOLER_ACCEPTED, FAILED_PRE_SPOOL or UNKNOWN_AFTER_SPOOL and with which job id; the caller is told what the row says |
| PhysicalPrinting.PhysicalPrintRuntime.Approach | src/wbcz/physical_printing.py:993-1072 | an execution already irreversible is refused without a trace; otherwise the boundary is reached exactly when everything agrees and commits and acknowledgements succeed, and short of it nothing is spooled or claimed to be |
| PhysicalPrinting.PhysicalPrintRuntime.ExecuteInner | src/wbcz/physical_printing.py:993-1215 | the same for the whole inner call of an open execution; a failed preparation leaves no trace |
| PhysicalPrinting.PhysicalPrintRuntime.Execute | src/wbcz/physical_printing.py:935-991 | keeps the history legal in any environment and never touches a closed execution; a label that does not agree in every point, the decoded bytes included, is neither recorded as verified nor submitted, and the first disagreement gives the recorded rejection; the caller is told what the row says; and the answers of the world decide acceptance, FAILED_PRE_SPOOL and UNKNOWN_AFTER_SPOOL with and without a job, a denied job coming only from the callback |
| PhysicalPrinting.Run | src/wbcz/physical_printing.py:935-991 | any sequence of executions and crashes: every row truthful, nothing irreversible taken back, no identity changed, no execution submitted twice; and while callbacks and Windows stay polite, FAILED_PRE_SPOOL means no job and UNKNOWN_AFTER_SPOOL one job with its id stored |
| Raster.BgrBottomUp | src/wbcz/physical_printing.py:739-755 | succeeds exactly on a 24-bpp image with all its bytes and returns the bottom-up rows with their stride |
| Raster.StrideIsLeastMultipleOfFour | src/wbcz/physical_printing.py:743-744 | the stride is the least multiple of 4 not below 3*width |
| Raster.DibRowsLength | src/wbcz/physical_printing.py:746-755 | the bitmap has stride*height bytes |
| Raster.DibRowAt | src/wbcz/physical_printing.py:747-755 | output row height-1-y is row y of the image |
| Raster.DibRowBytes | src/wbcz/physical_printing.py:749-754 | red and blue are exchanged, green kept, padding zero |
| Raster.BitmapRoundTrip | src/wbcz/physical_printing.py:739-755 | the inverse conversion recovers the image |
| AggregateTree.UnfoldingIsUnique | src/wbcz/aggregation.py:793-812 | a code has at most one finite unfolding of direct_children |
| AggregateTree.RootDoesNotRecur | src/wbcz/aggregation.py:803-806 | a code with a finite unfolding never occurs below itself |
| AggregateTree.UnfoldingIsComputed | src/wbcz/aggregation.py:793-812 | every unfolding of height within the limit is the one found by bounded descent |
| AggregateTree.FitsMeansReadable | src/wbcz/aggregation.py:786-814 | a clean walk from the root with nothing visited or seen is the same as readability by definition |
| AggregateTree.CleanIffFits | src/wbcz/aggregation.py:793-812 | a depth-first reading has no cause for a warning if and only if the unfolding fits, and then it is the unfolding |
| AggregateTree.ExploresOnlyRealEdges | src/wbcz/aggregation.py:801-811 | a reading, cut short or not, holds only edges of the graph |
| AggregateTree.ExploredShape | src/wbcz/aggregation.py:793-812 | in a reading of any graph, a node above the limit and off the open path has its direct children in order, and lacks one only if that edge was used elsewhere; any other node is a leaf; nothing more is missing, whatever the types |
| AggregateTree.LimitWarnedIff | src/wbcz/aggregation.py:799-800 | the limit is warned of exactly when the tree is higher than it |
| AggregateTree.TypeWarnedIff | src/wbcz/aggregation.py:796-798 | a raw type is warned of exactly when some node has it and it is not known |
| AggregateTree.CycleWarnedIff | src/wbcz/aggregation.py:801-802 | a cycle is warned of exactly when some node stands below its own code |
| AggregateTree.DuplicateWarnedIff | src/wbcz/aggregation.py:806-808 | a dropped edge is warned of exactly when some node lacks a direct child |
| AggregateTree.WalkReports | src/wbcz/aggregation.py:786-814 | so each warning of a whole reading occurs exactly when the tree shows its cause |
| AggregateTree.TreeWalk.Visit | src/wbcz/aggregation.py:793-812 | the walk returns, on any graph, exactly the depth-first reading, with exactly its warnings, one call per edge, and visiting restored |
| AggregateTree.TreeWalk.Walk | src/wbcz/aggregation.py:793-812 | terminates on any graph, restores visiting, follows only real edges and each once, one call per edge, and raises no warning exactly when the unfolding fits |
| AggregateTree.TreeWalk.WalkChildren | src/wbcz/aggregation.py:801-811 | the same for the loop over the children of an open node: every child in order but those whose edge was used |
| AggregateTree.BuildAggregateTree | src/wbcz/aggregation.py:786-814 | complete if and only if the full unfolding is finite, within the depth, repeats no edge and has only known types, and then the root is that unfolding; otherwise every child is there but at the limit, at a cycle or for a used edge, and each warning occurs exactly for its cause; only a code of 18 to 74 characters without white space is read |
| Reaggregation.CheckChildren | src/wbcz/aggregation.py:500-534 | accepts exactly unique children without a problem; otherwise reports the first problem in order |
| Reaggregation.ValidateReaggregationPreconditions | src/wbcz/aggregation.py:467-550 | accepts exactly the acceptable operations, and otherwise reports the first problem in order: the parent's, the absence of children, the parent's status, the first child's, the SET rule, the first remaining child's, the missing leading group |
| Reaggregation.AcceptedIffAllAgree | src/wbcz/aggregation.py:467-550 | an operation is acceptable if and only if owners, states, types, groups and places of parent, children and remaining children agree in the listed ways, children are unique and present, and the leading group remains |
| Reaggregation.ChildAgreesIff | src/wbcz/aggregation.py:500-534 | a child has no problem if and only if it belongs to the participant, is in an allowed state, may stand in this parent by its type, and is not placed yet (ADDING) or placed there (REMOVING) |
| Reaggregation.ParentAgreesIff | src/wbcz/aggregation.py:467-499 | a parent has no problem if and only if it is a box or set of the participant, at rest, in an allowed state |
| Reaggregation.RemainingAgreesIff | src/wbcz/aggregation.py:535-550 | the same for a child that stays |
| Reaggregation.AddReconciledIffRelationHolds | src/wbcz/aggregation.py:831-855 | with CHECKED_OK an ADD is RECONCILED if and only if the package holds exactly the expected children, on any consistent registry |
| Reaggregation.RemoveReconciledIffRelationHolds | src/wbcz/aggregation.py:831-855 | likewise a REMOVE; emptying the package also needs the auto-disaggregation event and a parent status |
| Reaggregation.FormReconciledIffRelationHolds | src/wbcz/aggregation.py:831-855 | likewise the four forming operations |
| Reaggregation.DisaggregateReconciledIffEmpty | src/wbcz/aggregation.py:831-855 | with CHECKED_OK a disaggregation is RECONCILED if and only if the package is empty, its history holds a disaggregation of either kind and its status was read |
| Reaggregation.UnconfirmedIsPending | src/wbcz/aggregation.py:831-855 | an operation is pending if and only if its document is not CHECKED_OK |
| Reaggregation.AcceptedChildrenPlaces | src/wbcz/aggregation.py:530-534 | acceptance puts no child in the parent before an ADD and every child in it before a REMOVE |
| Reaggregation.AcceptedAddReconciles | src/wbcz/aggregation.py:467-550 | an accepted ADD is RECONCILED on the registry it produces and never on the untouched one |
| Reaggregation.AcceptedRemoveReconciles | src/wbcz/aggregation.py:467-550 | an accepted REMOVE is RECONCILED on the registry it produces, given the emptying evidence where needed, and never on the untouched one |
| ArtifactCipher.NoncesAreDistinct | src/wbcz/m11_reports.py:694-706 | all chunk and footer nonces of one stream are pairwise distinct while the index is below 2^32 (section 8 of NIST SP 800-38D) |
| ArtifactCipher.U32IsBigEndian | src/wbcz/m11_reports.py:681-698 | lengths and counters are written most significant byte first |
| ArtifactCipher.JoinOfChunks | src/wbcz/m11_reports.py:688-703 | reading in chunks of any positive size loses nothing |
| ArtifactCipher.ChunkAt | src/wbcz/m11_reports.py:688-691 | chunk i holds the chunk_bytes bytes from i * chunk_bytes on, only the last one fewer, and there are no more chunks than bytes call for |
| ArtifactCipher.RoundTrip | src/wbcz/m11_reports.py:668-781 | decrypting an encrypted stream, whatever follows it, gives back bytes, length and digest for every plaintext and chunk size, independently of the reader's own settings; only an empty key version is refused |
| ArtifactCipher.MarkerNeverCollides | src/wbcz/m11_reports.py:704-711 | the zero length marker is not the length field of any chunk frame |
| ArtifactCipher.OnlySealedPlaintextDecrypts | src/wbcz/m11_reports.py:714-781 | whatever bytes decrypt are the frames of one honest stream for this context, all in place, and yield its plaintext: nothing dropped, repeated, reordered or spliced |
| ArtifactCipher.StrictPrefixIsRejected | src/wbcz/m11_reports.py:738-767 | no strict prefix of an encrypted stream decrypts |
| ArtifactCipher.ReadingCounts | src/wbcz/m11_reports.py:755-767 | a successful reading reports the length and digest of what it wrote |
| ArtifactCipher.IdealIsPossible | src/wbcz/m11_reports.py:686-708 | for any set of streams some cipher is ideal for them, so the theorems are not empty |
| ArtifactCipher.HonestUnderListedCipher | src/wbcz/m11_reports.py:686-708 | and streams stay honest under that cipher, when seals are as long as plaintext and tag |
| ArtifactCipher.ChunkedAeadArtifactCipher.EncryptStream | src/wbcz/m11_reports.py:668-712 | writes exactly the encrypted form of an honest stream and reports its size, digest and chunk count; succeeds exactly when the key is found with 32 bytes and every length and index fits |
| ArtifactCipher.ChunkedAeadArtifactCipher.EncryptChunks | src/wbcz/m11_reports.py:688-703 | the loop writes the frames of all chunks in order, or stops at the first that does not fit |
| ArtifactCipher.ChunkedAeadArtifactCipher.DecryptFrames | src/wbcz/m11_reports.py:738-781 | the loop agrees with the reading function on outcome and on what reached the target |
| ArtifactCipher.ChunkedAeadArtifactCipher.DecryptStream | src/wbcz/m11_reports.py:714-781 | likewise from the magic on, plaintext written before a failure included |
| ArtifactIngress.ReturnsAgree | src/wbcz/m11_reports.py:1581-1623 | all calls that returned for one upload carried the same bytes, however chunked, got the same artifact, of the expected size and within both ceilings |
| ArtifactIngress.JoinedConcat | src/wbcz/m11_reports.py:1562-1575 | two lists of chunks one after the other join to their joins one after the other |
| ArtifactIngress.PieceLiesInOrder | src/wbcz/m11_reports.py:1562-1575 | every chunk lies in the received bytes where those before it end |
| ArtifactIngress.SplitsIffJoined | src/wbcz/m11_reports.py:1562-1575 | a list of chunks splits some bytes if and only if all chunks are bytes and they join to them |
| ArtifactIngress.BinaryArtifactIngress.Prepare | src/wbcz/m11_reports.py:1505-1524 | adds one prepared binding with all its fields under a new id exactly when the opaque ids are valid |
| ArtifactIngress.BinaryArtifactIngress.Restart | src/wbcz/m11_reports.py:1500-1503 | losing the in-memory cache keeps every promise |
| ArtifactIngress.BinaryArtifactIngress.Receive | src/wbcz/m11_reports.py:1558-1577 | returns the bytes that the chunks split, in their order, exactly when every chunk is bytes and the total respects both ceilings |
| ArtifactIngress.BinaryArtifactIngress.Ingest | src/wbcz/m11_reports.py:1526-1623 | COMPLETED is absorbing; succeeds exactly on an addressed, received upload that replays the same bytes or completes for the first time; the bytes are those the chunks split, in their order; a size mismatch leaves CONFLICT with the observed size and digest; other bindings are untouched |
| ArtifactIngress.Resend | src/wbcz/m11_reports.py:1526-1623 | the same bytes cut into any other chunks and sent again to a completed upload get the same artifact, as long as it is cached or found |
| ArtifactIngress.BinaryArtifactIngress.Replay | src/wbcz/m11_reports.py:1581-1589 | a replay returns the artifact exactly when it is found and the bytes are its bytes |
| ArtifactIngress.BinaryArtifactIngress.Finalize | src/wbcz/m11_reports.py:1600-1621 | a first completion succeeds exactly when the store reports these bytes and the update holds, and keeps every promise even if the update dies before or after writing |
| ArtifactIngress.Run | src/wbcz/m11_reports.py:1505-1623 | over any sequence of prepares, ingests and restarts, whatever fails: completed uploads never change, and all calls that returned for one upload carried the same bytes within the bounds and got the same artifact |
| RateLimits.GrantKeepsEveryWindow | src/wbcz/m11_reports.py:966-987 | a grant into a window with room leaves every window, wherever it ends, within the limit |
| RateLimits.WindowOfSuffix | src/wbcz/m11_reports.py:980-981 | what the window holds of the full history is the suffix after the expired grants |
| RateLimits.RetryIsExact | src/wbcz/m11_reports.py:983-985 | with no other grant, a caller is admitted at a later time if and only if the announced delay has passed |
| RateLimits.Slide | src/wbcz/m11_reports.py:978-987 | the pruned queue decides exactly as the full history does, and a refusal announces the exact delay |
| RateLimits.DispenserRateLimiter.Consume | src/wbcz/m11_reports.py:966-987 | grants exactly when fewer than the limit lie in the last minute of that participant and family; no minute ever holds more |
| RateLimits.OzonClientIdRateLimiter.Consume | src/wbcz/ozon_foundation.py:270-280 | the same per client id and second, limit 50 |
| RateLimits.SpacingCapsEverySecond | src/wbcz/cis_inventory.py:253-260 | grants spaced 1/max_rps apart put at most max_rps into every half-open second |
| RateLimits.SharedRateLimiter.Acquire | src/wbcz/cis_inventory.py:253-260 | sleeps for exactly the missing time; no half-open second ever holds more than max_rps grants |
| Sanitizers.SanitizeTwice | src/wbcz/m11_reports.py:1125-1149 | sanitizing twice is sanitizing once in the stronger context, for any rules that keep discriminators |
| Sanitizers.BothRuleSetsAreStable | src/wbcz/ozon_foundation.py:373-405 | neither sanitizer redacts the fields that decide whether a mapping is sensitive |
| Sanitizers.ReportSanitizerLaws | src/wbcz/m11_reports.py:1125-1149 | idempotence in each context and absorption in either order, for the report sanitizer |
| Sanitizers.OzonSanitizerLaws | src/wbcz/ozon_foundation.py:407-424 | the same for the Ozon sanitizer |
| Sanitizers.StructureIsKept | src/wbcz/ozon_foundation.py:407-424 | keys, order and leaves survive outside redacted values, and a value is redacted only under a key that calls for it, or under an associated key in a sensitive mapping |
| Sanitizers.UnchangedIffClean | src/wbcz/m11_reports.py:1140-1149 | a value is returned unchanged if and only if it holds nothing that must be redacted |
| Sanitizers.SanitizedIsClean | src/wbcz/m11_reports.py:1125-1149 | the output holds nothing that must be redacted |
| Sanitizers.KeptOfJoin | src/wbcz/m11_reports.py:1125-1130 | compacting goes character by character |
| Sanitizers.KeptOfOne | src/wbcz/m11_reports.py:1125-1130 | and keeps exactly the lower-case letters and digits |
| Sanitizers.EntryBecomes | src/wbcz/m11_reports.py:1125-1149 | for any rules, what an entry of a mapping becomes, in a context that a discriminator anywhere in the mapping decides |
| Sanitizers.ReportEntryBecomes | src/wbcz/m11_reports.py:1125-1149 | with the keys and kinds of the report sanitizer written out: redacted, or read on in its context |
| Sanitizers.OzonEntryBecomes | src/wbcz/ozon_foundation.py:373-424 | likewise for the Ozon sanitizer |
| Events.SameIdIffSameUpToNotation | src/wbcz/models.py:76-125 | two events have one id if and only if they differ at most in the offset their date and the exponent their amount were written with (a negative zero is told apart); reading the stored form back gives the event up to that notation |
| Events.OneStrictOrder | src/wbcz/event_store.py:293-312 | with all dates known and distinct there is only one chronological order |
| Events.SwapStaysChronological | src/wbcz/event_store.py:314-327 | neighbours that no known dates order can be exchanged, giving a second chronological order |
| Events.ListingIffDisplayOrder | src/wbcz/event_store.py:293-312 | events(kiz) is the one listing with dated events by date, undated ones last and ids ascending among equals |
| Events.UnambiguousIffOneOrder | src/wbcz/event_store.py:293-327 | history_order_ambiguous is false if and only if the known dates admit one and only one chronological order, and then events(kiz) is that order |
| EventStore.InsertRowsIsUnion | src/wbcz/event_store.py:209-291 | importing rows gives the union of the table and the rows, each id with its own content |
| EventStore.ContentsAfterAllHold | src/wbcz/event_store.py:209-291 | after any list of steps the imported contents are those of before and every importable workbook presented, each under its fingerprint, and nothing else |
| EventStore.ContentIdsAfterAll | src/wbcz/event_store.py:229-259 | the event ids a list of steps adds are exactly those of the rows of all importable workbooks presented |
| EventStore.RecordsTellRows | src/wbcz/event_store.py:233-275 | after an import every row number stands for the event of its own row, stored with its own content, or for the message of its own issue |
| EventStore.RowAuditLists | src/wbcz/event_store.py:248-259 | the row loop audits each event that was new exactly once, and nothing else |
| EventStore.SameImportsSameContents | src/wbcz/event_store.py:209-291 | two lists of steps presenting the same pairs of fingerprint and workbook, in any order and with any repetition, leave the same contents |
| EventStore.OrderAndRepetitionDoNotMatter | src/wbcz/event_store.py:209-291 | so the stores after them hold equal event tables, and the numbers of new events reported sum to the same |
| EventStore.RunInTwoOrders | src/wbcz/event_store.py:209-291 | running both lists, other operations in between, leaves two stores with equal events |
| EventStore.ImportsStay | src/wbcz/event_store.py:262-285 | a first import keeps, and so every reachable store has, that each import's new plus duplicate is the number of rows of its workbook, its rejected count the number of issues, and its row table exactly its rows |
| EventStore.NewEventKeepsPreviews | src/wbcz/event_store.py:248-256 | dropping the previews of a KI that gains an event keeps every preview valid |
| EventStore.NewCheckKeepsPreviews | src/wbcz/event_store.py:337-373 | a new check becomes the preview of its event and keeps every preview valid |
| EventStore.ObservedKeepsDocuments | src/wbcz/event_store.py:411-476 | every document's history starts with ACCEPTED, ends with the current report and is terminal at most at the end |
| EventStore.ImportKeepsDatabase | src/wbcz/event_store.py:209-291 | a first import keeps the whole invariant: events are the union of all imports, their number is the sum of new events, previews are the latest checks on unchanged histories, documents are sound |
| EventStore.CheckKeepsDatabase | src/wbcz/event_store.py:337-373 | saving a check keeps the whole invariant |
| EventStore.ObservedKeepsDatabase | src/wbcz/event_store.py:411-476 | observing a document that is not terminal keeps the whole invariant |
| EventStore.EventStore.ExistingImport | src/wbcz/event_store.py:189-201 | in a valid store, a known fingerprint reports zero new events, all rows of its workbook as duplicates and all its issues as rejected |
| EventStore.EventStore.ImportRows | src/wbcz/event_store.py:229-259 | the row loop inserts the union, counts new and duplicate rows, audits each new event and drops exactly the previews of KIs that gained one |
| EventStore.EventStore.NumberRows | src/wbcz/event_store.py:233-275 | the row table takes all rows exactly when no row number repeats |
| EventStore.EventStore.ImportWorkbook | src/wbcz/event_store.py:209-291 | atomic; new plus duplicate is rows parsed and rejected is issues, on a first import and on a repeated one, which changes only the audit log; the row table tells each row its own event and each issue its own message |
| EventStore.EventStore.SaveCheck | src/wbcz/event_store.py:337-373 | adds the check under a new id with its KI snapshot, makes it the preview and audits it, exactly when the event exists |
| EventStore.EventStore.RegisterDocument | src/wbcz/event_store.py:411-441 | accepts a new document of a known event, repeats without change, and refuses another event's document |
| EventStore.EventStore.UpdateDocument | src/wbcz/event_store.py:452-476 | appends an observation until a terminal one, which never changes |
| EventStore.DocumentTracker.Refresh | src/wbcz/status_verifier.py:41-56 | on a registered document never hits the terminal-change error and never asks the verifier once terminal; a proper report is stored as it is; an exception, or an answer that is no report, is stored as VERIFICATION_ERROR with the first 2000 characters of its text, and the document stays open |
| EventStore.ObservedIsFaithful | src/wbcz/status_verifier.py:41-56 | the same of what is stored for each answer: only a proper report can close a document |
| EventStore.RefreshAfterFailure | src/wbcz/status_verifier.py:41-56 | after any failure to get a report, the next refresh asks the verifier again and stores what it says |
| EventStore.TakeStep | src/wbcz/event_store.py:189-476 | any one operation keeps the invariant, loses nothing recorded, and adds the workbook presented exactly when its fingerprint is new and its row numbers are distinct |
| EventStore.Run | src/wbcz/event_store.py:189-476 | over any sequence of imports, checks, registrations and refreshes: the events are exactly those of before and of every importable workbook presented, and as many as were reported new, previews, documents and import counts stay sound, and nothing recorded is lost or changed but previews and open documents |
| Percent.Utf8RoundTrip | src/wbcz/edo_lite.py:134-135 | UTF-8 decoding inverts encoding for every text |
| Percent.EncodedChar | src/wbcz/edo_lite.py:134-135 | lead byte, continuation bytes and value of every encoded character are those of section 3 of RFC 3629 |
| Percent.QuoteRoundTrip | src/wbcz/edo_lite.py:134-135 | unquoting inverts percent-encoding (section 2.1 of RFC 3986), with and without plus for space |
| Percent.QuotedJoin | src/wbcz/edo_lite.py:134-135 | texts are quoted character by character |
| Percent.QuotedByte | src/wbcz/edo_lite.py:134-135 | letters, digits and four marks print as themselves, any other byte as a percent sign and two upper-case digits |
| Percent.QuoteIsWire | src/wbcz/edo_lite.py:134-135 | quoted text holds only unreserved characters, percent signs and plus signs |
| Percent.QueryRoundTrip | src/wbcz/edo_lite.py:138-139 | reading a printed form query gives back every field in order, blank values included |
| EdoReads.ValidateIsIdempotent | src/wbcz/edo_lite.py:142-239 | validating a validated payload changes nothing |
| EdoReads.NoBadFieldIffFine | src/wbcz/edo_lite.py:152-195 | the ordered checks of a list payload accept exactly when every field is fine on its own |
| EdoReadLaws.BuilderTakesValidatorResults | src/wbcz/edo_lite.py:242-245 | the builder accepts exactly the validator's results, its fixed points |
| EdoReadLaws.ShapesAgree | src/wbcz/edo_lite.py:355-375 | for every job type the builder's path template and the guard's pattern, written apart, agree |
| EdoReadLaws.GuardReadsTarget | src/wbcz/edo_lite.py:304-311 | the guard splits a built target into exactly the path and query it was put together from |
| EdoReadLaws.UintReadsDecimal | src/wbcz/edo_lite.py:326-333 | the guard's number reader inverts the builder's number printer |
| EdoReadLaws.ListFieldValues | src/wbcz/edo_lite.py:252-263 | a built list query has every name at most once, with the payload's value |
| EdoReadLaws.GuardAcceptsBuiltIff | src/wbcz/edo_lite.py:242-380 | for every job type the guard accepts the built target if and only if its INNs are made of \d characters |
| EdoReadLaws.GuardAcceptsAsciiInns | src/wbcz/edo_lite.py:300-380 | with ASCII INNs the guard accepts every built target |
| EdoReadLaws.GuardRefusesSuperscriptInn | src/wbcz/edo_lite.py:122-125 | a superscript digit in an INN passes the builder and is refused by the guard |
| EdoReadLaws.TargetRoundTrip | src/wbcz/edo_lite.py:242-297 | decoding path and query of a built target with the guard's patterns gives the payload back |
| EdoReadLaws.BuilderIsInjective | src/wbcz/edo_lite.py:242-297 | two requests of one job type with one target carry one payload |
| EdoGuardLaws.SplitIff | src/wbcz/edo_lite.py:359-375 | splitting a path at its slashes tells exactly which segments it is made of |
| EdoGuardLaws.UrlSplitRebuilds | src/wbcz/edo_lite.py:304-311 | of a target that passes the first checks nothing is lost: path, query, dropped tabs, at most an empty host and an empty fragment |
| EdoGuardLaws.LabelsAgree | src/wbcz/edo_lite.py:242-297 | the guard pattern and the audit endpoint label of every job type agree, segment by segment |
| EdoGuardLaws.GuardAcceptsIff | src/wbcz/edo_lite.py:300-380 | for every spec: the guard accepts if and only if it is a GET of a supported job, without scheme, host, fragment and line break, whose path is the documented endpoint, segment by segment with one non-empty segment per id, and whose query is what that endpoint takes: nothing, a file id, or the documented names once each with values in range and the required four present |
| EdoGuardLaws.GuardRefusesMethodAndHost | src/wbcz/edo_lite.py:302-306 | another method, or a target that does not start with a slash, is refused |
| EdoGuardLaws.GuardRefusesOtherLengths | src/wbcz/edo_lite.py:359-375 | a path with more or fewer segments than the endpoint is refused, with and without a query |
| EdoGuardLaws.GuardRefusesTrailingSegment | src/wbcz/edo_lite.py:363-375 | a print path with a segment after it is refused |
| EdoGuardLaws.GuardRefusesUnknownField | src/wbcz/edo_lite.py:317-322 | a list query that names an undocumented field is refused, whatever else it holds |
| EdoGuardLaws.AcceptedStandsForPayload | src/wbcz/edo_lite.py:300-380 | whatever path and query the guard accepts decode to a payload, and the builder takes that payload if and only if its texts keep the length and NUL bounds of the validator |
| EdoGuardLaws.GuardAcceptsOverlongId | src/wbcz/edo_lite.py:355-375 | an id one character too long is accepted by the guard and by no payload |
| EdoGuardLaws.ListValidIff | src/wbcz/edo_lite.py:152-195 | a list payload is refused exactly for a documented reason |
| EdoGuardLaws.ValidListCarries | src/wbcz/edo_lite.py:152-195 | a validated list carries every given filter unchanged, no null, and the defaults for limit, offset and asc |
| EdoGuardLaws.PlainJobValidIff | src/wbcz/edo_lite.py:146-239 | every other job takes exactly its own fields, of the right form, and gives them back unchanged |

## Left out

- Parsing of the control record, which raises before `execute` does anything; parsing of the render contract and the GS1 display values enter as the answers of those steps.
- Win32 calls, DEVMODE loading, rendering and decoding of the label, and the printer search: their results are inputs; DeleteDC in the final clause is taken not to raise.
- StartDoc that raises is taken to have created no job: what Windows did behind an exception is not visible to the code.
- Two runtimes on one replay store at the same time: the boundary reads and writes in two transactions and does not promise it.
- SQLite and fsync: a committed record is atomic and durable; timestamps and audit details are dropped, the order of audit entries is kept.
- Real AES-GCM, SHA-256 and JSON text: an ideal cipher, injective digests, and header and footer codecs with a left inverse.
- Temporary files, free-disk measurement and deletion in the ingress: the disk answer is an input; bytes are not written to a file.
- ArtifactIngress.BinaryArtifactIngress.Prepare: the random upload id is an input of the call.
- ArtifactIngress.Run: finalized_lookup may find any subset of the artifacts made, and answers truthfully about those it finds; artifact ids do not repeat.
- AggregateTree.BuildAggregateTree: the two callbacks are taken to answer the same code the same way during one walk, and not to raise.
- RateLimits.DispenserRateLimiter.Consume: floating-point rounding is not modelled (seconds are reals), capabilities are those of the registry, whose limits are positive, and the clock does not go back.
- RateLimits.SharedRateLimiter.Acquire: the lock is one atomic call, and the sleeper sleeps at least as long as asked.
- Sanitizers: keys are strings (non-string keys are first turned into text), a tuple is a list, and two keys of one mapping are never equal.
- Events.SameIdIffSameUpToNotation: the constructor's bounds on fields are not modelled, and the digest orders as a number.
- EventStore.EventStore.ImportWorkbook: the parser of the workbook is not modelled; that a fingerprint determines its content is a precondition, as SHA-256 of the file makes it.
- Percent: how many replacement characters a malformed UTF-8 run decodes to is not the library's count, and lone surrogates, which the library refuses to encode, are not characters here.
- EdoReads: the query part of the GIS audit label, Python's cap on the digits of an integer text, and key order of a payload are not modelled; an accepted job type outside the read set is one value.
- HTTP clients, TLS, the agent loop, DPAPI, migrations, release scripts and the frontend: plumbing and declarations.
- Control engine, document assembler, report catalogues, other reconcilers (ATK, auto-disaggregation, M5) and the other precondition validators: decision tables that one reading of a branch settles.
- The document lifecycle builder and guard: the same idea as EDO reads with different id rules.
