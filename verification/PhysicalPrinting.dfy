/**
 At-most-once physical printing: the durable replay table, the runtime that drives one
 execution, and the Windows spooler with its irreversible side effect.
 Models src/wbcz/physical_printing.py.

 Everything the machine does that outlives a call is appended to the ghost log of the
 store: committed rows, the acknowledgement of begin_spool, the calls into Windows that
 took effect. A crash is the exception ProcessDied, which no handler catches and which
 can strike before or after every commit and inside every callback or Windows call; a
 restart is the next call of Execute on the same store.
 */
module PhysicalPrinting {
  import opened Common
  import opened Raster

  // ---------- Data ----------

  datatype Identity = Identity(
    printJobItemId: string, deliveryReservationId: string, payloadSha: string,
    layoutSha: string, printerProfileId: string, printerProfileFingerprint: string)

  datatype ReplayState =
    | RenderedVerified | SpoolSubmitting | SpoolJobCreated | SpoolerAccepted
    | UnknownAfterSpool | FailedPreSpool | Blocked

  datatype Row = Row(identity: Identity, state: ReplayState, jobId: Option<int>,
                     windowsStatus: Option<string>, errorCode: Option<string>)

  /** Python's exception classes, by the handlers that tell them apart. */
  datatype Exn =
    | ReplayBlocked
    | DefinitePreSpool(code: string)
    | Ambiguous(code: string, jobId: Option<int>)
    | PrintSecurity
    | PrintError
    | PrintingSecurity
    | PrintingContract
    | ProfileContract
    | OtherException
    | ProcessDied

  datatype Reply<+T> = Returned(value: T) | Raised(exn: Exn)

  /** What SQLite and fsync may do to one record call besides succeeding. */
  datatype Fault = NoFault | BeforeCommit(dies: bool) | AfterCommit(dies: bool)

  datatype Control = Control(executionId: string, identity: Identity, agentPrinterId: string)

  datatype RenderContract = RenderContract(
    executionId: string, dpiX: int, dpiY: int, widthPx: int, heightPx: int,
    printableWidth: int, printableHeight: int, offsetX: int, offsetY: int,
    profileState: string, profileFingerprint: string, agentPrinterId: string)

  datatype Resolved = Resolved(queueName: string, dpiX: int, dpiY: int)

  datatype LabelRaster = LabelRaster(image: Image, layoutSha: string, dpi: int,
    offsetX: int, offsetY: int, printableWidth: int, printableHeight: int)

  datatype DevMode = DevMode(copies: int, scalePercent: Option<int>)

  datatype DcGeometry = DcGeometry(dpiX: int, dpiY: int, physicalWidth: int, physicalHeight: int,
    printableWidth: int, printableHeight: int, offsetX: int, offsetY: int)

  /** The calls of record in the text of the runtime, in order. */
  datatype CommitPoint =
    | AtRendered | AtBoundary | AtJobCreated | AtFailed | AtAmbiguousJob | AtUnknown
    | AtAcceptedJob | AtAccepted | AtRejected

  /** One call's environment: the answer of every party outside this code. */
  datatype World = World(
    parseContract: Reply<()>,         // PhysicalRenderContract.from_mapping
    fullKm: seq<byte>,
    payloadSha: string,               // its SHA-256
    resolve: Reply<Resolved>,
    render: Reply<LabelRaster>,
    decoded: Reply<seq<byte>>,        // what the independent decoder reads back
    markRendered: Reply<()>,
    beginSpool: Reply<()>,
    resolveAgain: Reply<Resolved>,
    devMode: Reply<DevMode>,
    createDc: Reply<bool>,
    geometry: Reply<DcGeometry>,
    startDoc: Reply<int>,
    reportJobCreated: Reply<()>,
    startPage: Reply<int>,
    setDiBits: Reply<int>,
    endPage: Reply<int>,
    endDoc: Reply<int>,
    reportOutcome: Reply<()>,
    fault: CommitPoint -> Fault)

  datatype Summary = Summary(state: ReplayState, jobId: Option<int>, errorCode: Option<string>)

  predicate Irreversible(state: ReplayState) {
    state in {SpoolSubmitting, SpoolJobCreated, SpoolerAccepted, UnknownAfterSpool, FailedPreSpool}
  }

  predicate Settled(state: ReplayState) {
    state in {SpoolerAccepted, UnknownAfterSpool, FailedPreSpool}
  }

  // ---------- What a log says about one execution id ----------

  datatype Event =
    | Committed(id: string, row: Row)
    | BeginSpoolReturned(id: string)
    | SubmitCalled(id: string)
    | JobStarted(id: string, job: int)
    | PageStarted(id: string)
    | RasterDrawn(id: string)
    | PageEnded(id: string)
    | DocEnded(id: string)
    | SpoolRaised(id: string, exn: Exn)   // in the guarded spool section, by an outside party or the raster check

  datatype Facts = Facts(
    row: Option<Row>, begun: bool, submits: nat, jobs: seq<int>, progress: nat,
    definiteAfterJob: bool, ambiguousBeforeJob: bool, ambiguousAfterJob: bool)

  const Nothing := Facts(None, false, 0, [], 0, false, false, false)

  function Apply(f: Facts, e: Event): Facts {
    match e
    case Committed(_, row) => f.(row := Some(row))
    case BeginSpoolReturned(_) => f.(begun := true)
    case SubmitCalled(_) => f.(submits := f.submits + 1)
    case JobStarted(_, job) => f.(jobs := f.jobs + [job])
    case PageStarted(_) => f.(progress := 1)
    case RasterDrawn(_) => f.(progress := if f.progress == 1 then 2 else 0)
    case PageEnded(_) => f.(progress := if f.progress == 2 then 3 else 0)
    case DocEnded(_) => f.(progress := if f.progress == 3 then 4 else 0)
    case SpoolRaised(_, exn) =>
      f.(definiteAfterJob := f.definiteAfterJob || (exn.DefinitePreSpool? && f.jobs != []),
         ambiguousBeforeJob := f.ambiguousBeforeJob || (exn.Ambiguous? && f.jobs == []),
         ambiguousAfterJob := f.ambiguousAfterJob || (exn.Ambiguous? && f.jobs != []))
  }

  function About(log: seq<Event>, id: string): Facts {
    if log == [] then Nothing
    else
      var before := About(log[..|log| - 1], id);
      var e := log[|log| - 1];
      if e.id == id then Apply(before, e) else before
  }

  /** One id's facts at one moment: the row tells the truth about Windows. */
  ghost predicate Truthful(f: Facts) {
    && f.submits <= 1 && |f.jobs| <= f.submits
    && (f.submits == 1 ==> f.begun)
    && (f.begun ==> f.row.Some? && Irreversible(f.row.value.state))
    && (f.definiteAfterJob || f.ambiguousAfterJob || f.progress > 0 ==> f.jobs != [])
    && (f.ambiguousBeforeJob ==> f.jobs == [] && f.begun)
    && (f.row.Some? ==> RowTruthful(f, f.row.value))
  }

  ghost predicate RowTruthful(f: Facts, row: Row) {
    match row.state
    case RenderedVerified => true
    case Blocked => true
    case SpoolSubmitting => true
    case SpoolJobCreated => (f.jobs == [] ==> f.ambiguousBeforeJob) && StoredJob(f, row)
    case SpoolerAccepted =>
      && |f.jobs| == 1 && row.jobId == Some(f.jobs[0]) && f.progress == 4
      && !f.definiteAfterJob && !f.ambiguousAfterJob
      && row.windowsStatus == Some("QUEUED") && row.errorCode == None
    case UnknownAfterSpool =>
      && (f.jobs == [] <==> f.ambiguousBeforeJob) && StoredJob(f, row)
      && row.windowsStatus == Some("UNKNOWN") && row.errorCode.Some?
    case FailedPreSpool => (f.jobs != [] <==> f.definiteAfterJob) && row.errorCode.Some?
  }

  ghost predicate StoredJob(f: Facts, row: Row) {
    f.jobs != [] && !f.ambiguousAfterJob ==> row.jobId == Some(f.jobs[0])
  }

  /** How one id's facts may evolve, over one event or over any stretch of history. */
  ghost predicate Onward(f: Facts, g: Facts) {
    && f.submits <= g.submits && f.jobs <= g.jobs && (f.begun ==> g.begun)
    && (f.row.Some? ==>
      && g.row.Some? && g.row.value.identity == f.row.value.identity
      && (Irreversible(f.row.value.state) ==> Irreversible(g.row.value.state))
      && (Settled(f.row.value.state) ==> g.row == f.row && g.jobs == f.jobs && g.submits == f.submits))
  }

  /** The legal next event of an id. */
  ghost predicate StepOk(f: Facts, e: Event) {
    && Truthful(Apply(f, e))
    && Onward(f, Apply(f, e))
    && (e.SubmitCalled? ==> f.begun && f.row.Some? && f.row.value.state == SpoolSubmitting)
    && (e.BeginSpoolReturned? ==> f.row.Some? && f.row.value.state == SpoolSubmitting)
  }

  ghost predicate History(log: seq<Event>) {
    log == [] ||
    var before, e := log[..|log| - 1], log[|log| - 1];
    History(before) && StepOk(About(before, e.id), e)
  }

  lemma AboutSnoc(log: seq<Event>, e: Event, id: string)
    ensures About(log + [e], id) == if e.id == id then Apply(About(log, id), e) else About(log, id)
  {
    assert (log + [e])[..|log|] == log;
  }

  lemma HistorySnoc(log: seq<Event>, e: Event)
    requires History(log) && StepOk(About(log, e.id), e)
    ensures History(log + [e])
  {
    assert (log + [e])[..|log|] == log;
  }

  lemma HistorySnocCommit(log: seq<Event>, id: string, row: Row)
    requires History(log) && StepOk(About(log, id), Committed(id, row))
    ensures History(log + [Committed(id, row)])
  {
    HistorySnoc(log, Committed(id, row));
  }

  // ---------- Theorems about every legal history ----------

  lemma {:induction false} HistoryIsTruthful(log: seq<Event>, id: string)
    requires History(log)
    ensures Truthful(About(log, id))
  {
    if log != [] {
      HistoryIsTruthful(log[..|log| - 1], id);
    }
  }

  /** Irreversible states stay irreversible, settled rows are frozen, identities never change. */
  lemma {:induction false} HistoryOnlyMovesOnward(log: seq<Event>, i: nat, j: nat, id: string)
    requires History(log) && i <= j <= |log|
    ensures History(log[..i]) && History(log[..j])
    ensures Onward(About(log[..i], id), About(log[..j], id))
    decreases |log|
  {
    hide Truthful, Apply;
    assert log[..|log|] == log;
    if i < |log| {
      var before := log[..|log| - 1];
      HistoryOnlyMovesOnward(before, i, if j < |log| then j else |before|, id);
      assert before[..i] == log[..i] && before[..|before|] == before;
      if j < |log| {
        assert before[..j] == log[..j];
      } else {
        OnwardTransitive(About(log[..i], id), About(before, id), About(log, id));
      }
    }
  }

  lemma OnwardTransitive(f: Facts, g: Facts, h: Facts)
    requires Onward(f, g) && Onward(g, h)
    ensures Onward(f, h)
  {
  }

  /** Windows is asked to submit a given execution at most once, whatever crashed or raised. */
  lemma {:induction false} SubmittedAtMostOnce(log: seq<Event>, i: nat, j: nat)
    requires History(log) && i < |log| && j < |log|
    requires log[i].SubmitCalled? && log[j].SubmitCalled? && log[i].id == log[j].id
    ensures i == j
  {
    if i < j {
      SubmitCounted(log, i, j);
    } else if j < i {
      SubmitCounted(log, j, i);
    }
  }

  lemma AboutAt(log: seq<Event>, k: nat, id: string)
    requires k < |log|
    ensures About(log[..k + 1], id) ==
            if log[k].id == id then Apply(About(log[..k], id), log[k]) else About(log[..k], id)
  {
    assert log[..k + 1] == log[..k] + [log[k]];
    AboutSnoc(log[..k], log[k], id);
  }

  lemma SubmitCounted(log: seq<Event>, i: nat, j: nat)
    requires History(log) && i < j < |log|
    requires log[i].SubmitCalled?
    ensures log[j] != log[i]
  {
    hide About, History;
    var id := log[i].id;
    AboutAt(log, i, id);
    AboutAt(log, j, id);
    HistoryOnlyMovesOnward(log, i + 1, j, id);
    HistoryOnlyMovesOnward(log, j + 1, j + 1, id);
    HistoryIsTruthful(log[..j + 1], id);
  }

  lemma {:induction false} RowWasCommitted(log: seq<Event>, id: string) returns (c: nat)
    requires About(log, id).row.Some?
    ensures c < |log| && log[c] == Committed(id, About(log, id).row.value)
    ensures forall k :: c < k < |log| ==> !(log[k].Committed? && log[k].id == id)
  {
    var last := |log| - 1;
    if log[last].Committed? && log[last].id == id {
      c := last;
    } else {
      c := RowWasCommitted(log[..last], id);
    }
  }

  lemma {:induction false} BeginWasReturned(log: seq<Event>, id: string) returns (b: nat)
    requires History(log) && About(log, id).begun
    ensures b < |log| && log[b] == BeginSpoolReturned(id)
    ensures About(log[..b], id).row.Some? && About(log[..b], id).row.value.state == SpoolSubmitting
  {
    var last := |log| - 1;
    if log[last] == BeginSpoolReturned(id) {
      b := last;
    } else {
      b := BeginWasReturned(log[..last], id);
      assert log[..last][..b] == log[..b];
    }
  }

  /** Submission only ever follows a committed SPOOL_SUBMITTING and a begin_spool that returned, in that order. */
  lemma SubmittedOnlyAfterTheBoundary(log: seq<Event>, i: nat)
    returns (c: nat, b: nat)
    requires History(log) && i < |log| && log[i].SubmitCalled?
    ensures c < b < i
    ensures log[c].Committed? && log[c].id == log[i].id && log[c].row.state == SpoolSubmitting
    ensures log[b] == BeginSpoolReturned(log[i].id)
  {
    var id := log[i].id;
    HistoryOnlyMovesOnward(log, i + 1, i + 1, id);
    assert log[..i + 1][..i] == log[..i];
    b := BeginWasReturned(log[..i], id);
    assert log[..i][..b] == log[..b];
    c := RowWasCommitted(log[..b], id);
  }

  /** Entry k shows an outside party raising one of the two spool exceptions for id, before a job existed or after. */
  ghost predicate RaisedAt(log: seq<Event>, id: string, k: nat, definite: bool, afterJob: bool)
    requires k < |log|
  {
    && log[k].SpoolRaised? && log[k].id == id
    && (if definite then log[k].exn.DefinitePreSpool? else log[k].exn.Ambiguous?)
    && (About(log[..k], id).jobs != [] <==> afterJob)
  }

  ghost predicate WasRaised(log: seq<Event>, id: string, definite: bool, afterJob: bool) {
    exists k :: 0 <= k < |log| && RaisedAt(log, id, k, definite, afterJob)
  }

  lemma RaisedSnoc(log: seq<Event>, id: string, definite: bool, afterJob: bool)
    requires log != []
    ensures WasRaised(log, id, definite, afterJob) <==>
              WasRaised(log[..|log| - 1], id, definite, afterJob) || RaisedAt(log, id, |log| - 1, definite, afterJob)
  {
    hide About;
    var before := log[..|log| - 1];
    forall k | 0 <= k < |before|
      ensures RaisedAt(log, id, k, definite, afterJob) <==> RaisedAt(before, id, k, definite, afterJob)
    {
      assert before[..k] == log[..k];
    }
  }

  /** The flags of the facts are what outside parties raised, as the log shows it. */
  lemma {:induction false} FlagsAreEvents(log: seq<Event>, id: string)
    ensures About(log, id).definiteAfterJob <==> WasRaised(log, id, true, true)
    ensures About(log, id).ambiguousBeforeJob <==> WasRaised(log, id, false, false)
    ensures About(log, id).ambiguousAfterJob <==> WasRaised(log, id, false, true)
  {
    if log != [] {
      FlagsAreEvents(log[..|log| - 1], id);
      RaisedSnoc(log, id, true, true);
      RaisedSnoc(log, id, false, false);
      RaisedSnoc(log, id, false, true);
      hide WasRaised;
    }
  }

  /** FAILED_PRE_SPOOL denies a Windows job rightly unless somebody raised DefinitePreSpoolFailure after one existed. */
  lemma {:induction false} FailedPreSpoolTellsTheTruthIff(log: seq<Event>, id: string)
    requires History(log)
    requires About(log, id).row.Some? && About(log, id).row.value.state == FailedPreSpool
    ensures About(log, id).jobs == [] <==> !WasRaised(log, id, true, true)
    ensures About(log, id).row.value.errorCode.Some?
  {
    HistoryIsTruthful(log, id);
    FlagsAreEvents(log, id);
  }

  /** UNKNOWN_AFTER_SPOOL means a job exists, unless somebody raised AmbiguousAfterSpool before one did. */
  lemma {:induction false} UnknownMeansAJobExistsIff(log: seq<Event>, id: string)
    requires History(log)
    requires About(log, id).row.Some? && About(log, id).row.value.state == UnknownAfterSpool
    ensures |About(log, id).jobs| == 1 <==> !WasRaised(log, id, false, false)
    ensures !WasRaised(log, id, false, false) && !WasRaised(log, id, false, true) ==>
              About(log, id).row.value.jobId == Some(About(log, id).jobs[0])
    ensures About(log, id).row.value.windowsStatus == Some("UNKNOWN") && About(log, id).row.value.errorCode.Some?
  {
    HistoryIsTruthful(log, id);
    FlagsAreEvents(log, id);
  }

  lemma {:induction false} ProgressWasMade(log: seq<Event>, id: string, goal: nat) returns (at: nat)
    requires 1 <= goal <= 4 && goal <= About(log, id).progress
    ensures at < |log| && log[at].id == id
    ensures log[at] == [PageStarted(id), RasterDrawn(id), PageEnded(id), DocEnded(id)][goal - 1]
    ensures About(log[..at], id).progress == goal - 1 || goal == 1
  {
    var last := |log| - 1;
    var before := log[..last];
    if log[last].id == id && About(log, id).progress == goal && About(log, id).progress != About(before, id).progress {
      at := last;
    } else {
      at := ProgressWasMade(before, id, goal);
      assert before[..at] == log[..at];
    }
  }

  /** SPOOLER_ACCEPTED means one job whose page, raster, page end and document end all succeeded, in order. */
  lemma AcceptedMeansWindowsAccepted(log: seq<Event>, id: string)
    returns (page: nat, drawn: nat, pageEnd: nat, docEnd: nat)
    requires History(log)
    requires About(log, id).row.Some? && About(log, id).row.value.state == SpoolerAccepted
    ensures |About(log, id).jobs| == 1
    ensures About(log, id).row.value.jobId == Some(About(log, id).jobs[0])
    ensures About(log, id).row.value.windowsStatus == Some("QUEUED") && About(log, id).row.value.errorCode == None
    ensures page < drawn < pageEnd < docEnd < |log|
    ensures log[page] == PageStarted(id) && log[drawn] == RasterDrawn(id)
    ensures log[pageEnd] == PageEnded(id) && log[docEnd] == DocEnded(id)
  {
    HistoryIsTruthful(log, id);
    docEnd := ProgressWasMade(log, id, 4);
    pageEnd := ProgressWasMade(log[..docEnd], id, 3);
    assert log[..docEnd][..pageEnd] == log[..pageEnd];
    drawn := ProgressWasMade(log[..pageEnd], id, 2);
    assert log[..pageEnd][..drawn] == log[..drawn];
    page := ProgressWasMade(log[..drawn], id, 1);
  }

  // ---------- The replay store ----------

  /** The upsert of record: the new row, or the refusal. */
  function Upsert(existing: Option<Row>, identity: Identity, state: ReplayState,
                  jobId: Option<int>, windowsStatus: Option<string>, errorCode: Option<string>): Result<Row, Exn>
  {
    match existing
    case None => Ok(Row(identity, state, jobId, windowsStatus, errorCode))
    case Some(row) =>
      if row.identity != identity then Err(ReplayBlocked)
      else if Irreversible(row.state) && state == RenderedVerified then Err(ReplayBlocked)
      else if row.state == SpoolerAccepted && state != SpoolerAccepted then Err(ReplayBlocked)
      else Ok(Row(row.identity, state,
                  if jobId.Some? then jobId else row.jobId,
                  if windowsStatus.Some? then windowsStatus else row.windowsStatus,
                  errorCode))
  }

  /** record alone does not keep an execution irreversible: it lets it out through BLOCKED. */
  lemma RecordAloneWouldReopen(identity: Identity, state: ReplayState)
    requires Irreversible(state)
    ensures var row := Row(identity, state, None, None, None);
            var blocked := Upsert(Some(row), identity, Blocked, None, None, None);
            (blocked.Ok? && Upsert(Some(blocked.value), identity, RenderedVerified, None, None, None).Ok?)
            <==> state != SpoolerAccepted
  {
  }

  /** When record refuses, and what it writes otherwise: a job id or Windows status once known is not forgotten. */
  lemma RecordRules(existing: Option<Row>, identity: Identity, state: ReplayState,
                    jobId: Option<int>, windowsStatus: Option<string>, errorCode: Option<string>)
    ensures var u := Upsert(existing, identity, state, jobId, windowsStatus, errorCode);
            && (u.Err? <==>
                  && existing.Some?
                  && (|| existing.value.identity != identity
                      || (state == RenderedVerified && existing.value.state !in {RenderedVerified, Blocked})
                      || (state != SpoolerAccepted && existing.value.state == SpoolerAccepted)))
            && (u.Err? ==> u.error == ReplayBlocked)
            && (u.Ok? ==>
                  && u.value.identity == identity && u.value.state == state && u.value.errorCode == errorCode
                  && (jobId.Some? ==> u.value.jobId == jobId)
                  && (jobId.None? ==> u.value.jobId == if existing.Some? then existing.value.jobId else None)
                  && (windowsStatus.Some? ==> u.value.windowsStatus == windowsStatus)
                  && (windowsStatus.None? ==>
                        u.value.windowsStatus == if existing.Some? then existing.value.windowsStatus else None))
  {
  }

  class AgentPhysicalReplayStore {
    var rows: map<string, Row>
    ghost var log: seq<Event>

    constructor ()
      ensures Valid() && log == []
    {
      rows, log := map[], [];
    }

    function Lookup(id: string): (row: Option<Row>)
      reads this
    {
      if id in rows then Some(rows[id]) else None
    }

    ghost function Facts(id: string): Facts
      reads this
    {
      About(log, id)
    }

    /** The table is the last committed row of every id. */
    ghost predicate Valid()
      reads this
    {
      forall id :: Lookup(id) == About(log, id).row
    }

    /** Valid, and the log is a legal history: what the runtime keeps and record alone does not. */
    ghost predicate Sound()
      reads this
    {
      Valid() && History(log)
    }

    ghost method Observe(e: Event)
      requires Sound() && !e.Committed? && StepOk(Facts(e.id), e)
      modifies `log
      ensures Sound() && log == old(log) + [e]
      ensures Facts(e.id) == Apply(old(Facts(e.id)), e)
      ensures forall id :: id != e.id ==> Facts(id) == old(Facts(id))
    {
      HistorySnoc(log, e);
      forall id { AboutSnoc(log, e, id); }
      log := log + [e];
    }

    method Get(id: string) returns (row: Option<Row>)
      requires Valid()
      ensures row == Facts(id).row
    {
      row := Lookup(id);
    }

    method Record(id: string, identity: Identity, state: ReplayState, jobId: Option<int>,
                  windowsStatus: Option<string>, errorCode: Option<string>, fault: Fault)
      returns (r: Reply<()>)
      requires Valid()
      modifies this
      ensures Valid()
      ensures var u := Upsert(old(Facts(id)).row, identity, state, jobId, windowsStatus, errorCode);
              if fault.BeforeCommit? || u.Err? then
                && log == old(log) && rows == old(rows)
                && r == if fault.BeforeCommit? then Died(fault.dies) else Raised(u.error)
              else
                log == old(log) + [Committed(id, u.value)]
                && Facts(id) == old(Facts(id)).(row := Some(u.value))
                && r == if fault.AfterCommit? then Died(fault.dies) else Returned(())
      ensures forall other :: other != id ==> Facts(other) == old(Facts(other))
    {
      if fault.BeforeCommit? {
        return Died(fault.dies);
      }
      var u := Upsert(Lookup(id), identity, state, jobId, windowsStatus, errorCode);
      if u.Err? {
        return Raised(u.error);
      }
      rows := rows[id := u.value];
      forall other { AboutSnoc(log, Committed(id, u.value), other); }
      log := log + [Committed(id, u.value)];
      return if fault.AfterCommit? then Died(fault.dies) else Returned(());
    }
  }

  function Died(dies: bool): Reply<()> {
    Raised(if dies then ProcessDied else OtherException)
  }

  // ---------- Checks with no side effect ----------

  /** render_decode_verify_physical_label: the decoder looks at the raster before it decodes. */
  function RenderDecodeVerify(w: World): (r: Reply<LabelRaster>)
    ensures r.Returned? <==> w.render.Returned? && WellFormed(w.render.value.image) && w.decoded == Returned(w.fullKm)
    ensures r.Returned? ==> r == w.render
  {
    match w.render
    case Raised(exn) => Raised(exn)
    case Returned(raster) =>
      if !WellFormed(raster.image) then Raised(PrintingContract)
      else match w.decoded
        case Raised(exn) => Raised(exn)
        case Returned(bytes) => if bytes != w.fullKm then Raised(PrintingSecurity) else Returned(raster)
  }

  /** What the steps before the first record yield or raise; the raster they yield is well-formed. */
  function Prepare(control: Control, contract: RenderContract, w: World): (r: Reply<LabelRaster>)
    ensures r.Returned? ==> WellFormed(r.value.image)
    ensures r.Returned? ==>
              w.decoded == Returned(w.fullKm) && w.render.Returned? && r.value.image == w.render.value.image
  {
    if w.parseContract.Raised? then Raised(w.parseContract.exn)
    else if contract.executionId != control.executionId then Raised(PrintSecurity)
    else if w.payloadSha != control.identity.payloadSha then Raised(PrintSecurity)
    else if contract.profileState != "ACTIVE" then Raised(PrintError)
    else if contract.profileFingerprint != control.identity.printerProfileFingerprint then Raised(PrintSecurity)
    else if contract.agentPrinterId != control.agentPrinterId then Raised(PrintSecurity)
    else if contract.dpiX != contract.dpiY then Raised(PrintError)
    else match w.resolve
      case Raised(exn) => Raised(exn)
      case Returned(resolved) =>
        if resolved.dpiX != contract.dpiX || resolved.dpiY != contract.dpiY then Raised(PrintError)
        else match RenderDecodeVerify(w)
          case Raised(exn) => Raised(exn)
          case Returned(raster) =>
            if raster.layoutSha != control.identity.layoutSha then Raised(PrintSecurity)
            else if raster.image.width != contract.widthPx || raster.image.height != contract.heightPx then
              Raised(PrintingContract)
            else
              Returned(raster.(offsetX := contract.offsetX, offsetY := contract.offsetY,
                               printableWidth := contract.printableWidth,
                               printableHeight := contract.printableHeight))
  }

  function ValidateFinalDcGeometry(actual: DcGeometry, raster: LabelRaster): Option<Exn> {
    if actual.dpiX != raster.dpi || actual.dpiY != raster.dpi then
      Some(DefinitePreSpool("PRINTER_PROFILE_DPI_CHANGED"))
    else if actual.physicalWidth != raster.image.width || actual.physicalHeight != raster.image.height then
      Some(DefinitePreSpool("PRINTER_PHYSICAL_GEOMETRY_CHANGED"))
    else if actual.printableWidth != raster.printableWidth || actual.printableHeight != raster.printableHeight then
      Some(DefinitePreSpool("PRINTER_PRINTABLE_AREA_CHANGED"))
    else if actual.offsetX != raster.offsetX || actual.offsetY != raster.offsetY then
      Some(DefinitePreSpool("PRINTER_PHYSICAL_OFFSET_CHANGED"))
    else None
  }

  // ---------- What must agree before anything is recorded, stage by stage ----------

  /** The call belongs to this execution and payload. */
  ghost predicate Belongs(control: Control, contract: RenderContract, w: World) {
    && w.parseContract.Returned? && contract.executionId == control.executionId
    && w.payloadSha == control.identity.payloadSha
  }

  ghost predicate ProfileActive(control: Control, contract: RenderContract, w: World) {
    Belongs(control, contract, w) && contract.profileState == "ACTIVE"
  }

  ghost predicate SamePrinter(control: Control, contract: RenderContract, w: World) {
    && ProfileActive(control, contract, w)
    && contract.profileFingerprint == control.identity.printerProfileFingerprint
    && contract.agentPrinterId == control.agentPrinterId
  }

  ghost predicate SquareDpi(control: Control, contract: RenderContract, w: World) {
    SamePrinter(control, contract, w) && contract.dpiX == contract.dpiY
  }

  ghost predicate PrinterFound(control: Control, contract: RenderContract, w: World) {
    && SquareDpi(control, contract, w) && w.resolve.Returned?
    && w.resolve.value.dpiX == contract.dpiX && w.resolve.value.dpiY == contract.dpiY
  }

  ghost predicate Rendered(control: Control, contract: RenderContract, w: World) {
    PrinterFound(control, contract, w) && w.render.Returned?
  }

  ghost predicate SoundRaster(control: Control, contract: RenderContract, w: World) {
    && Rendered(control, contract, w)
    && w.render.value.image.bpp == 24
    && |w.render.value.image.pixels| == w.render.value.image.width * w.render.value.image.height * 3
  }

  /** The independent decoder reads back exactly the payload. */
  ghost predicate DecodesExactly(control: Control, contract: RenderContract, w: World) {
    SoundRaster(control, contract, w) && w.decoded == Returned(w.fullKm)
  }

  ghost predicate SameLayout(control: Control, contract: RenderContract, w: World) {
    DecodesExactly(control, contract, w) && w.render.value.layoutSha == control.identity.layoutSha
  }

  /** Everything agrees: what a label must pass before it is recorded as verified. */
  ghost predicate ReadyToPrint(control: Control, contract: RenderContract, w: World) {
    && SameLayout(control, contract, w)
    && w.render.value.image.width == contract.widthPx && w.render.value.image.height == contract.heightPx
  }

  /** The rendered raster, placed by the contract. */
  function RasterToPrint(contract: RenderContract, w: World): LabelRaster
    requires w.render.Returned?
  {
    w.render.value.(offsetX := contract.offsetX, offsetY := contract.offsetY,
                    printableWidth := contract.printableWidth, printableHeight := contract.printableHeight)
  }

  lemma PreparedIffEverythingAgrees(control: Control, contract: RenderContract, w: World)
    ensures Prepare(control, contract, w).Returned? <==> ReadyToPrint(control, contract, w)
    ensures ReadyToPrint(control, contract, w) ==>
              && w.render.Returned? && Prepare(control, contract, w) == Returned(RasterToPrint(contract, w))
              && WellFormed(RasterToPrint(contract, w).image)
  {
  }

  /** One of the outside steps raises exn, everything before it being in order. */
  ghost predicate StageRaises(control: Control, contract: RenderContract, w: World, exn: Exn) {
    || w.parseContract == Raised(exn)
    || (SquareDpi(control, contract, w) && w.resolve == Raised(exn))
    || (PrinterFound(control, contract, w) && w.render == Raised(exn))
    || (SoundRaster(control, contract, w) && w.decoded == Raised(exn))
  }

  /** The first thing wrong is an identity that does not match. */
  ghost predicate SecurityFails(control: Control, contract: RenderContract, w: World) {
    || (w.parseContract.Returned? && !Belongs(control, contract, w))
    || (ProfileActive(control, contract, w) && !SamePrinter(control, contract, w))
    || (SoundRaster(control, contract, w) && w.decoded.Returned? && !DecodesExactly(control, contract, w))
    || (DecodesExactly(control, contract, w) && !SameLayout(control, contract, w))
    || StageRaises(control, contract, w, PrintSecurity) || StageRaises(control, contract, w, PrintingSecurity)
  }

  /** The first thing wrong is the raster. */
  ghost predicate RasterFails(control: Control, contract: RenderContract, w: World) {
    || (Rendered(control, contract, w) && !SoundRaster(control, contract, w))
    || (SameLayout(control, contract, w) && !ReadyToPrint(control, contract, w))
    || StageRaises(control, contract, w, PrintingContract)
  }

  /** The first thing wrong is the printer or its profile. */
  ghost predicate PrinterFails(control: Control, contract: RenderContract, w: World) {
    || (Belongs(control, contract, w) && !ProfileActive(control, contract, w))
    || (SamePrinter(control, contract, w) && !SquareDpi(control, contract, w))
    || (SquareDpi(control, contract, w) && w.resolve.Returned? && !PrinterFound(control, contract, w))
    || StageRaises(control, contract, w, PrintError) || StageRaises(control, contract, w, ProfileContract)
    || exists code, job :: StageRaises(control, contract, w, Ambiguous(code, job))
  }

  /** The state and code an execution stopped before its first record is left with. */
  ghost predicate StoppedWith(control: Control, contract: RenderContract, w: World, state: ReplayState, code: string) {
    || (state == Blocked && code == "PHYSICAL_SECURITY_VALIDATION_FAILED" && SecurityFails(control, contract, w))
    || (state == Blocked && code == "PHYSICAL_RENDER_VALIDATION_FAILED" && RasterFails(control, contract, w))
    || (state == Blocked && code == "PHYSICAL_PRE_SPOOL_VALIDATION_FAILED" && PrinterFails(control, contract, w))
    || (state == FailedPreSpool && StageRaises(control, contract, w, DefinitePreSpool(code)))
  }

  /** An exception the outer handler does not answer: nothing is recorded. */
  ghost predicate Unanswered(exn: Exn) {
    exn.ReplayBlocked? || exn.OtherException? || exn.ProcessDied?
  }

  lemma ReadyRaisesNothing(control: Control, contract: RenderContract, w: World, exn: Exn)
    requires ReadyToPrint(control, contract, w)
    ensures !StageRaises(control, contract, w, exn)
  {
  }

  lemma ReadyIsNotStopped(control: Control, contract: RenderContract, w: World)
    requires ReadyToPrint(control, contract, w)
    ensures forall state, code :: !StoppedWith(control, contract, w, state, code)
    ensures forall exn :: !StageRaises(control, contract, w, exn)
  {
    hide StageRaises;
    forall exn { ReadyRaisesNothing(control, contract, w, exn); }
  }

  lemma SecurityFailsIff(control: Control, contract: RenderContract, w: World)
    requires Prepare(control, contract, w).Raised?
    ensures SecurityFails(control, contract, w) <==>
              Prepare(control, contract, w).exn in {PrintSecurity, PrintingSecurity}
  {
  }

  lemma RasterFailsIff(control: Control, contract: RenderContract, w: World)
    requires Prepare(control, contract, w).Raised?
    ensures RasterFails(control, contract, w) <==> Prepare(control, contract, w).exn == PrintingContract
  {
  }

  lemma PrinterFailsIff(control: Control, contract: RenderContract, w: World)
    requires Prepare(control, contract, w).Raised?
    ensures PrinterFails(control, contract, w) <==>
              var exn := Prepare(control, contract, w).exn; exn.PrintError? || exn.ProfileContract? || exn.Ambiguous?
  {
    var exn := Prepare(control, contract, w).exn;
    if exn.Ambiguous? {
      assert StageRaises(control, contract, w, Ambiguous(exn.code, exn.jobId));
    }
  }

  lemma StageRaisesIff(control: Control, contract: RenderContract, w: World, exn: Exn)
    requires Prepare(control, contract, w).Raised? && (Unanswered(exn) || exn.DefinitePreSpool?)
    ensures StageRaises(control, contract, w, exn) <==> Prepare(control, contract, w).exn == exn
  {
  }

  /** Stopping before the first record goes one of these ways, and the outer handler answers as listed. */
  lemma StoppedOneWay(control: Control, contract: RenderContract, w: World)
    requires !ReadyToPrint(control, contract, w)
    ensures var prepared := Prepare(control, contract, w);
            && prepared.Raised?
            && (forall state, code :: StoppedWith(control, contract, w, state, code) <==>
                  Rejection(prepared.exn) == Some((state, code)))
            && (forall exn | Unanswered(exn) :: StageRaises(control, contract, w, exn) <==> prepared.exn == exn)
  {
    hide Prepare, ReadyToPrint, SecurityFails, RasterFails, PrinterFails, StageRaises;
    PreparedIffEverythingAgrees(control, contract, w);
    SecurityFailsIff(control, contract, w);
    RasterFailsIff(control, contract, w);
    PrinterFailsIff(control, contract, w);
    forall exn: Exn | Unanswered(exn) || exn.DefinitePreSpool?
      ensures StageRaises(control, contract, w, exn) <==> Prepare(control, contract, w).exn == exn
    {
      StageRaisesIff(control, contract, w, exn);
    }
  }

  lemma GeometryChangeIsDefinite(actual: DcGeometry, raster: LabelRaster)
    ensures var changed := ValidateFinalDcGeometry(actual, raster);
            changed.Some? ==> changed.value.DefinitePreSpool?
    ensures ValidateFinalDcGeometry(actual, raster).None? <==>
              actual == DcGeometry(raster.dpi, raster.dpi, raster.image.width, raster.image.height,
                                   raster.printableWidth, raster.printableHeight, raster.offsetX, raster.offsetY)
  {
  }

  /** The handlers around the document: what leaves submit for an exception raised inside. */
  function SpoolCatch(exn: Exn, job: int): Exn {
    match exn
    case DefinitePreSpool(_) => exn
    case Ambiguous(_, _) => exn
    case ProcessDied => exn
    case _ =>
      if job > 0 then Ambiguous("GDI_EXCEPTION_AFTER_START_DOC", Some(job))
      else DefinitePreSpool("GDI_EXCEPTION_BEFORE_JOB")
  }

  /** The state and code the outer handler records for a failure before the boundary; None re-raises. */
  function Rejection(exn: Exn): Option<(ReplayState, string)> {
    match exn
    case DefinitePreSpool(code) => Some((FailedPreSpool, code))
    case PrintSecurity => Some((Blocked, "PHYSICAL_SECURITY_VALIDATION_FAILED"))
    case PrintingSecurity => Some((Blocked, "PHYSICAL_SECURITY_VALIDATION_FAILED"))
    case PrintingContract => Some((Blocked, "PHYSICAL_RENDER_VALIDATION_FAILED"))
    case PrintError => Some((Blocked, "PHYSICAL_PRE_SPOOL_VALIDATION_FAILED"))
    case Ambiguous(_, _) => Some((Blocked, "PHYSICAL_PRE_SPOOL_VALIDATION_FAILED"))
    case ProfileContract => Some((Blocked, "PHYSICAL_PRE_SPOOL_VALIDATION_FAILED"))
    case ReplayBlocked => None
    case OtherException => None
    case ProcessDied => None
  }

  // ---------- The runtime ----------

  /** This execution crossed the boundary, was acknowledged, and nothing reached Windows yet. */
  ghost predicate AtTheBoundary(f: Facts, identity: Identity) {
    && f.row.Some? && f.row.value.identity == identity && f.row.value.state == SpoolSubmitting
    && f.begun && f.submits == 0 && f.jobs == [] && f.progress == 0
    && !f.definiteAfterJob && !f.ambiguousBeforeJob && !f.ambiguousAfterJob
  }

  /** Inside submit: the row is still open, and the flags are clear. */
  ghost predicate Spooling(f: Facts, identity: Identity) {
    && f.row.Some? && f.row.value.identity == identity
    && f.row.value.state in {SpoolSubmitting, SpoolJobCreated}
    && f.begun && f.submits == 1
    && !f.definiteAfterJob && !f.ambiguousBeforeJob && !f.ambiguousAfterJob
    && (f.row.value.state == SpoolJobCreated ==> f.jobs != [] && f.row.value.jobId == Some(f.jobs[0]))
  }

  /** The row is open and the exception leaving the spool section explains the flags. */
  ghost predicate LeftSpoolWith(f: Facts, identity: Identity, exn: Exn) {
    && f.row.Some? && f.row.value.identity == identity
    && f.row.value.state in {SpoolSubmitting, SpoolJobCreated}
    && f.begun
    && (f.row.value.state == SpoolJobCreated ==> f.jobs != [] && f.row.value.jobId == Some(f.jobs[0]))
    && (exn.DefinitePreSpool? ==> (f.jobs != [] <==> f.definiteAfterJob))
    && (exn.Ambiguous? ==> (f.jobs == [] <==> f.ambiguousBeforeJob))
    && (exn.Ambiguous? && f.jobs != [] && !f.ambiguousAfterJob ==> exn.jobId == Some(f.jobs[0]))
  }

  function Failure<T>(r: Reply<T>): Option<Exn> {
    if r.Raised? then Some(r.exn) else None
  }

  // ---------- The first failure of each stage of the spool section ----------

  /** Opening the device context inside submit. */
  function DeviceFailure(queueName: string, w: World): Option<Exn> {
    if queueName == "" then Some(DefinitePreSpool("LOCAL_PRINTER_QUEUE_UNAVAILABLE"))
    else match w.devMode
      case Raised(exn) => Some(exn)
      case Returned(mode) =>
        if mode.copies != 1 then Some(DefinitePreSpool("PRINTER_DEVMODE_COPIES_UNSAFE"))
        else if mode.scalePercent !in {None, Some(100)} then Some(DefinitePreSpool("PRINTER_DEVMODE_SCALING_UNSAFE"))
        else match w.createDc
          case Raised(exn) => Some(exn)
          case Returned(created) => if created then None else Some(DefinitePreSpool("GDI_CREATE_DC_FAILED"))
  }

  /** The geometry proof and StartDoc. */
  function StartFailure(w: World, raster: LabelRaster): Option<Exn> {
    match w.geometry
    case Raised(exn) => Some(exn)
    case Returned(geometry) =>
      var changed := ValidateFinalDcGeometry(geometry, raster);
      if changed.Some? then changed
      else match w.startDoc
        case Raised(exn) => Some(exn)
        case Returned(job) => if job <= 0 then Some(DefinitePreSpool("GDI_START_DOC_FAILED")) else None
  }

  /** The job StartDoc returns, or 0. */
  function JobOf(w: World, raster: LabelRaster): int {
    if StartFailure(w, raster).None? && w.startDoc.Returned? then w.startDoc.value else 0
  }

  /** on_job_created: the durable record, then the report. */
  function CallbackFailure(w: World): Option<Exn> {
    if w.fault(AtJobCreated) != NoFault then Some(Died(w.fault(AtJobCreated).dies).exn)
    else if w.reportJobCreated.Raised? then Some(w.reportJobCreated.exn)
    else None
  }

  function EndFailure(w: World, job: int): Option<Exn> {
    match w.endPage
    case Raised(exn) => Some(exn)
    case Returned(ended) =>
      if ended <= 0 then Some(Ambiguous("GDI_END_PAGE_FAILED", Some(job)))
      else match w.endDoc
        case Raised(exn) => Some(exn)
        case Returned(closed) => if closed <= 0 then Some(Ambiguous("GDI_END_DOC_FAILED", Some(job))) else None
  }

  function PageFailure(w: World, raster: LabelRaster, job: int): Option<Exn> {
    match w.startPage
    case Raised(exn) => Some(exn)
    case Returned(started) =>
      if started <= 0 then Some(Ambiguous("GDI_START_PAGE_FAILED", Some(job)))
      else if !WellFormed(raster.image) then Some(DefinitePreSpool("FINAL_RASTER_INVALID"))
      else match w.setDiBits
        case Raised(exn) => Some(exn)
        case Returned(lines) =>
          if lines != raster.image.height then Some(Ambiguous("GDI_RASTER_OUTPUT_FAILED", Some(job)))
          else EndFailure(w, job)
  }

  function DocumentFailure(w: World, raster: LabelRaster): Option<Exn> {
    if StartFailure(w, raster).Some? then StartFailure(w, raster)
    else if CallbackFailure(w).Some? then CallbackFailure(w)
    else PageFailure(w, raster, JobOf(w, raster))
  }

  /** What leaves submit: failures of the document pass through its handlers. */
  function SubmitFailure(queueName: string, w: World, raster: LabelRaster): Option<Exn> {
    if DeviceFailure(queueName, w).Some? then DeviceFailure(queueName, w)
    else match DocumentFailure(w, raster)
      case None => None
      case Some(exn) => Some(SpoolCatch(exn, JobOf(w, raster)))
  }

  /** What leaves the second resolution and the call of the spooler. */
  function SpoolFailure(contract: RenderContract, w: World, raster: LabelRaster): Option<Exn> {
    match w.resolveAgain
    case Raised(exn) => Some(exn)
    case Returned(printer) =>
      if printer.dpiX != contract.dpiX || printer.dpiY != contract.dpiY then
        Some(DefinitePreSpool("PRINTER_PROFILE_DPI_CHANGED"))
      else SubmitFailure(printer.queueName, w, raster)
  }

  predicate FoundAgain(contract: RenderContract, w: World) {
    && w.resolveAgain.Returned? && w.resolveAgain.value.queueName != ""
    && w.resolveAgain.value.dpiX == contract.dpiX && w.resolveAgain.value.dpiY == contract.dpiY
  }

  predicate GoodDevMode(w: World) {
    w.devMode.Returned? && w.devMode.value.copies == 1 && w.devMode.value.scalePercent in {None, Some(100)}
  }

  /** The opened device measures what the raster was made for. */
  predicate GoodGeometry(w: World, raster: LabelRaster) {
    && w.geometry.Returned?
    && w.geometry.value == DcGeometry(raster.dpi, raster.dpi, raster.image.width, raster.image.height,
                                      raster.printableWidth, raster.printableHeight, raster.offsetX, raster.offsetY)
  }

  /** The answers with which a device context is open and its geometry proved. */
  predicate ReadyToStart(contract: RenderContract, w: World, raster: LabelRaster) {
    FoundAgain(contract, w) && GoodDevMode(w) && w.createDc == Returned(true) && GoodGeometry(w, raster)
  }

  /** The answers with which a Windows job comes to exist. */
  predicate StartsJob(contract: RenderContract, w: World, raster: LabelRaster) {
    ReadyToStart(contract, w, raster) && w.startDoc.Returned? && w.startDoc.value > 0
  }

  lemma StartsJobIff(contract: RenderContract, w: World, raster: LabelRaster)
    ensures StartsJob(contract, w, raster) <==>
              FoundAgain(contract, w) && DeviceFailure(w.resolveAgain.value.queueName, w).None? && JobOf(w, raster) > 0
    ensures StartsJob(contract, w, raster) ==> JobOf(w, raster) == w.startDoc.value
  {
  }

  /** The answers with which Windows takes the whole document. */
  predicate Succeeds(contract: RenderContract, w: World, raster: LabelRaster) {
    && StartsJob(contract, w, raster)
    && w.fault(AtJobCreated) == NoFault && w.reportJobCreated.Returned?
    && w.startPage.Returned? && w.startPage.value > 0 && WellFormed(raster.image)
    && w.setDiBits.Returned? && w.setDiBits.value == raster.image.height
    && w.endPage.Returned? && w.endPage.value > 0 && w.endDoc.Returned? && w.endDoc.value > 0
  }

  ghost predicate IsDefinite<T>(r: Reply<T>) {
    r.Raised? && r.exn.DefinitePreSpool?
  }

  ghost predicate IsAmbiguous<T>(r: Reply<T>) {
    r.Raised? && r.exn.Ambiguous?
  }

  /** The calls into Windows themselves never raise DefinitePreSpoolFailure. */
  ghost predicate WindowsRaisesNoDefinite(w: World) {
    !IsDefinite(w.startPage) && !IsDefinite(w.setDiBits) && !IsDefinite(w.endPage) && !IsDefinite(w.endDoc)
  }

  ghost predicate QuietBeforeJob(w: World) {
    && !IsAmbiguous(w.resolveAgain) && !IsAmbiguous(w.devMode) && !IsAmbiguous(w.createDc)
    && !IsAmbiguous(w.geometry) && !IsAmbiguous(w.startDoc)
  }

  ghost predicate QuietAfterJob(w: World) {
    && !IsAmbiguous(w.reportJobCreated) && !IsAmbiguous(w.startPage) && !IsAmbiguous(w.setDiBits)
    && !IsAmbiguous(w.endPage) && !IsAmbiguous(w.endDoc)
  }

  /** The answers with which AmbiguousAfterSpool is raised before StartDoc has returned a job. */
  ghost predicate AmbiguousBeforeJob(contract: RenderContract, w: World, raster: LabelRaster) {
    || IsAmbiguous(w.resolveAgain)
    || (FoundAgain(contract, w) && IsAmbiguous(w.devMode))
    || (FoundAgain(contract, w) && GoodDevMode(w) && IsAmbiguous(w.createDc))
    || (FoundAgain(contract, w) && GoodDevMode(w) && w.createDc == Returned(true) && IsAmbiguous(w.geometry))
    || (ReadyToStart(contract, w, raster) && IsAmbiguous(w.startDoc))
  }

  ghost predicate AcceptanceCommits(w: World) {
    w.fault(AtAcceptedJob) == NoFault && !w.fault(AtAccepted).BeforeCommit?
  }

  ghost predicate UnknownCommits(jobId: Option<int>, w: World) {
    (jobId.Some? ==> w.fault(AtAmbiguousJob) == NoFault) && !w.fault(AtUnknown).BeforeCommit?
  }

  /** The job id an ambiguous failure names. */
  function NamedJob(failure: Option<Exn>): Option<int> {
    if failure.Some? && failure.value.Ambiguous? then failure.value.jobId else None
  }

  /** How an execution that reached the spool section ends, by the answers it got. */
  ghost predicate SpoolEnds(f: Facts, contract: RenderContract, w: World, raster: LabelRaster) {
    var failure := SpoolFailure(contract, w, raster);
    && f.row.Some? && Irreversible(f.row.value.state)
    && f.jobs == (if StartsJob(contract, w, raster) then [w.startDoc.value] else [])
    && (f.row.value.state == SpoolerAccepted <==> failure.None? && AcceptanceCommits(w))
    && (f.row.value.state == FailedPreSpool <==>
          failure.Some? && failure.value.DefinitePreSpool? && !w.fault(AtFailed).BeforeCommit?)
    && (f.row.value.state == UnknownAfterSpool <==>
          failure.Some? && failure.value.Ambiguous? && UnknownCommits(NamedJob(failure), w))
    && (f.row.value.state == UnknownAfterSpool && NamedJob(failure).Some? ==>
          f.row.value.jobId == NamedJob(failure))
    && (f.row.value.state in {FailedPreSpool, UnknownAfterSpool} ==> f.row.value.errorCode == Some(failure.value.code))
  }

  /** How an execution ends that did not get there: nothing is spooled or claimed to be. */
  ghost predicate NothingSpooled(f: Facts) {
    f.jobs == [] && (f.row.Some? ==> f.row.value.state !in {SpoolJobCreated, SpoolerAccepted, UnknownAfterSpool})
  }

  /** The row says that nothing reached Windows, and a Windows job exists. */
  ghost predicate DeniesJob(f: Facts) {
    f.row.Some? && f.row.value.state == FailedPreSpool && f.jobs != []
  }

  ghost predicate IsUnknown(f: Facts) {
    f.row.Some? && f.row.value.state == UnknownAfterSpool
  }

  // ---------- What each recorded outcome means, in terms of the answers ----------

  lemma NoFailureIffSucceeds(contract: RenderContract, w: World, raster: LabelRaster)
    ensures SpoolFailure(contract, w, raster).None? <==> Succeeds(contract, w, raster)
  {
  }

  /** Accepted exactly when every call of the document succeeds and both records commit. */
  lemma AcceptedIffWindowsTakesAll(f: Facts, contract: RenderContract, w: World, raster: LabelRaster)
    requires SpoolEnds(f, contract, w, raster)
    ensures f.row.Some?
    ensures f.row.value.state == SpoolerAccepted <==> Succeeds(contract, w, raster) && AcceptanceCommits(w)
  {
    hide SpoolFailure;
    NoFailureIffSucceeds(contract, w, raster);
  }

  /** When a failure of submit on a started job claims to be one before the job; the raster need not be checked. */
  lemma SubmitDeniesJobIff(queueName: string, w: World, raster: LabelRaster)
    requires WindowsRaisesNoDefinite(w) && DeviceFailure(queueName, w).None? && JobOf(w, raster) > 0
    ensures var failure := SubmitFailure(queueName, w, raster);
            failure.Some? && failure.value.DefinitePreSpool? <==>
              if w.fault(AtJobCreated) != NoFault then false
              else if w.reportJobCreated.Raised? then IsDefinite(w.reportJobCreated)
              else !WellFormed(raster.image) && w.startPage.Returned? && w.startPage.value > 0
  {
    hide DeviceFailure, StartFailure;
  }

  /** A record that denies an existing job is the doing of on_job_created, and of nothing else. */
  lemma JobDeniedIffCallbackRaisesDefinite(f: Facts, contract: RenderContract, w: World, raster: LabelRaster)
    requires SpoolEnds(f, contract, w, raster) && WellFormed(raster.image) && WindowsRaisesNoDefinite(w)
    ensures DeniesJob(f) <==>
              StartsJob(contract, w, raster) && w.fault(AtJobCreated) == NoFault && IsDefinite(w.reportJobCreated)
              && !w.fault(AtFailed).BeforeCommit?
  {
    hide SubmitFailure, DeviceFailure, WellFormed;
    StartsJobIff(contract, w, raster);
    if StartsJob(contract, w, raster) {
      SubmitDeniesJobIff(w.resolveAgain.value.queueName, w, raster);
    }
  }

  /** A call with a sound raster and a flawless Windows whose job report is refused by the callback. */
  function RefusedReport(): (Control, RenderContract, World) {
    var identity := Identity("item", "delivery", "payload", "layout", "profile", "fingerprint");
    var printer := Resolved("queue", 300, 300);
    var raster := LabelRaster(Image(1, 1, 24, [0, 0, 0]), "layout", 300, 0, 0, 1, 1);
    var w := World(
      parseContract := Returned(()), fullKm := [1], payloadSha := "payload",
      resolve := Returned(printer), render := Returned(raster),
      decoded := Returned([1]), markRendered := Returned(()), beginSpool := Returned(()),
      resolveAgain := Returned(printer),
      devMode := Returned(DevMode(1, None)), createDc := Returned(true),
      geometry := Returned(DcGeometry(300, 300, 1, 1, 1, 1, 0, 0)), startDoc := Returned(7),
      reportJobCreated := Raised(DefinitePreSpool("REPORT_REFUSED")),
      startPage := Returned(1), setDiBits := Returned(1), endPage := Returned(1), endDoc := Returned(1),
      reportOutcome := Returned(()), fault := _ => NoFault);
    (Control("execution", identity, "printer"),
     RenderContract("execution", 300, 300, 1, 1, 1, 1, 0, 0, "ACTIVE", "fingerprint", "printer"), w)
  }

  /** Such a callback is enough: however the call ends by these answers, it denies the job. */
  lemma CallbackCanDenyAJob(f: Facts)
    requires var (control, contract, w) := RefusedReport(); EndsBy(f, control, contract, w, None)
    ensures WindowsRaisesNoDefinite(RefusedReport().2) && DeniesJob(f)
  {
    var (control, contract, w) := RefusedReport();
    var raster := w.render.value;
    assert ReadyToPrint(control, contract, w) && RasterToPrint(contract, w) == raster;
    assert StartsJob(contract, w, raster);
    JobDeniedIffCallbackRaisesDefinite(f, contract, w, raster);
  }

  /** Without a job, the failure is an ambiguous one exactly when a party says so before StartDoc returns. */
  lemma AmbiguousWithoutJobIff(contract: RenderContract, w: World, raster: LabelRaster)
    ensures var failure := SpoolFailure(contract, w, raster);
            failure.Some? && failure.value.Ambiguous? && !StartsJob(contract, w, raster) <==>
              AmbiguousBeforeJob(contract, w, raster)
  {
    hide ValidateFinalDcGeometry, CallbackFailure, PageFailure;
    if w.geometry.Returned? {
      GeometryChangeIsDefinite(w.geometry.value, raster);
    }
  }

  /** UNKNOWN_AFTER_SPOOL stands without a job exactly when AmbiguousAfterSpool comes early and the records commit. */
  lemma UnknownWithoutJobIff(f: Facts, contract: RenderContract, w: World, raster: LabelRaster)
    requires SpoolEnds(f, contract, w, raster)
    ensures IsUnknown(f) && f.jobs == [] <==>
              AmbiguousBeforeJob(contract, w, raster)
              && UnknownCommits(NamedJob(SpoolFailure(contract, w, raster)), w)
  {
    hide SpoolFailure, StartsJob, AmbiguousBeforeJob;
    AmbiguousWithoutJobIff(contract, w, raster);
  }

  /** After a job, with nobody else raising it, AmbiguousAfterSpool carries the job's own id. */
  lemma OwnAmbiguityNamesTheJob(contract: RenderContract, w: World, raster: LabelRaster)
    requires StartsJob(contract, w, raster) && QuietAfterJob(w)
    ensures var failure := SpoolFailure(contract, w, raster);
            failure.Some? && failure.value.Ambiguous? ==> failure.value.jobId == Some(w.startDoc.value)
  {
    hide ValidateFinalDcGeometry, WellFormed;
    GeometryChangeIsDefinite(w.geometry.value, raster);
  }

  /** When no call before the job raises AmbiguousAfterSpool, UNKNOWN means one job; if none after, its id is stored. */
  lemma UnknownMeansOneJob(f: Facts, contract: RenderContract, w: World, raster: LabelRaster)
    requires SpoolEnds(f, contract, w, raster) && IsUnknown(f) && QuietBeforeJob(w)
    ensures w.startDoc.Returned? && f.jobs == [w.startDoc.value]
    ensures QuietAfterJob(w) ==> f.row.value.jobId == Some(w.startDoc.value)
  {
    hide SpoolFailure;
    UnknownWithoutJobIff(f, contract, w, raster);
    if QuietAfterJob(w) {
      OwnAmbiguityNamesTheJob(contract, w, raster);
    }
  }

  /** An exception the handlers of the document read as a failure before the job. */
  ghost predicate FailsBeforeJob<T>(r: Reply<T>) {
    r.Raised? && !r.exn.Ambiguous? && !r.exn.ProcessDied?
  }

  /** An exception they read as one after it. */
  ghost predicate FailsAfterJob<T>(r: Reply<T>) {
    r.Raised? && !r.exn.DefinitePreSpool? && !r.exn.ProcessDied?
  }

  /** The answers with which the failure is a definite one and no job was started. */
  ghost predicate DefiniteBeforeJob(contract: RenderContract, w: World, raster: LabelRaster) {
    || IsDefinite(w.resolveAgain) || (w.resolveAgain.Returned? && !FoundAgain(contract, w))
    || (FoundAgain(contract, w) && (IsDefinite(w.devMode) || (w.devMode.Returned? && !GoodDevMode(w))))
    || (FoundAgain(contract, w) && GoodDevMode(w) && (IsDefinite(w.createDc) || w.createDc == Returned(false)))
    || (FoundAgain(contract, w) && GoodDevMode(w) && w.createDc == Returned(true)
        && (FailsBeforeJob(w.geometry) || (w.geometry.Returned? && !GoodGeometry(w, raster))))
    || (ReadyToStart(contract, w, raster)
        && (FailsBeforeJob(w.startDoc) || (w.startDoc.Returned? && w.startDoc.value <= 0)))
  }

  /** The answers with which the page or the document breaks off, on a well-formed raster. */
  ghost predicate PageBreaks(w: World, height: nat) {
    || FailsAfterJob(w.startPage) || (w.startPage.Returned? && w.startPage.value <= 0)
    || (w.startPage.Returned? && FailsAfterJob(w.setDiBits))
    || (w.startPage.Returned? && w.setDiBits.Returned? && w.setDiBits.value != height)
    || (w.startPage.Returned? && w.setDiBits.Returned? && DocumentBreaks(w))
  }

  ghost predicate DocumentBreaks(w: World) {
    || FailsAfterJob(w.endPage) || (w.endPage.Returned? && w.endPage.value <= 0)
    || (w.endPage.Returned? && FailsAfterJob(w.endDoc))
    || (w.endPage.Returned? && w.endDoc.Returned? && w.endDoc.value <= 0)
  }

  /** The answers with which the failure is an ambiguous one and a job was started. */
  ghost predicate AmbiguousAfterJob(w: World, height: nat) {
    if w.fault(AtJobCreated) != NoFault then !w.fault(AtJobCreated).dies
    else FailsAfterJob(w.reportJobCreated) || (w.reportJobCreated.Returned? && PageBreaks(w, height))
  }

  /** The code of each failure before a job, where the calls before it went well. */
  lemma CodesBeforeJob(contract: RenderContract, w: World, raster: LabelRaster)
    ensures var failure := SpoolFailure(contract, w, raster);
            && (w.resolveAgain.Returned?
                && (w.resolveAgain.value.dpiX != contract.dpiX || w.resolveAgain.value.dpiY != contract.dpiY) ==>
                  failure == Some(DefinitePreSpool("PRINTER_PROFILE_DPI_CHANGED")))
            && (FoundAgain(contract, w) && w.devMode.Returned? && w.devMode.value.copies != 1 ==>
                  failure == Some(DefinitePreSpool("PRINTER_DEVMODE_COPIES_UNSAFE")))
            && (FoundAgain(contract, w) && w.devMode.Returned? && w.devMode.value.copies == 1 && !GoodDevMode(w) ==>
                  failure == Some(DefinitePreSpool("PRINTER_DEVMODE_SCALING_UNSAFE")))
            && (FoundAgain(contract, w) && GoodDevMode(w) && w.createDc == Returned(false) ==>
                  failure == Some(DefinitePreSpool("GDI_CREATE_DC_FAILED")))
            && (ReadyToStart(contract, w, raster) && w.startDoc.Returned? && w.startDoc.value <= 0 ==>
                  failure == Some(DefinitePreSpool("GDI_START_DOC_FAILED")))
            && (ReadyToStart(contract, w, raster) && w.startDoc == Raised(OtherException) ==>
                  failure == Some(DefinitePreSpool("GDI_EXCEPTION_BEFORE_JOB")))
  {
    hide CallbackFailure, PageFailure, ValidateFinalDcGeometry;
    if w.geometry.Returned? {
      GeometryChangeIsDefinite(w.geometry.value, raster);
    }
  }

  /** The code of each failure after it; all of them name the job. */
  lemma CodesAfterJob(contract: RenderContract, w: World, raster: LabelRaster)
    requires StartsJob(contract, w, raster) && WellFormed(raster.image)
    requires w.fault(AtJobCreated) == NoFault && w.reportJobCreated.Returned?
    ensures var failure, job := SpoolFailure(contract, w, raster), Some(w.startDoc.value);
            && (w.startPage.Returned? && w.startPage.value <= 0 ==>
                  failure == Some(Ambiguous("GDI_START_PAGE_FAILED", job)))
            && (w.startPage.Returned? && w.startPage.value > 0 ==>
                  && (w.setDiBits.Returned? && w.setDiBits.value != raster.image.height ==>
                        failure == Some(Ambiguous("GDI_RASTER_OUTPUT_FAILED", job)))
                  && (w.setDiBits == Returned(raster.image.height) ==>
                        && (w.endPage.Returned? && w.endPage.value <= 0 ==>
                              failure == Some(Ambiguous("GDI_END_PAGE_FAILED", job)))
                        && (w.endPage.Returned? && w.endPage.value > 0 && w.endDoc.Returned? && w.endDoc.value <= 0 ==>
                              failure == Some(Ambiguous("GDI_END_DOC_FAILED", job)))))
            && (w.startPage == Raised(OtherException) ==>
                  failure == Some(Ambiguous("GDI_EXCEPTION_AFTER_START_DOC", job)))
  {
    hide ValidateFinalDcGeometry, WellFormed;
    GeometryChangeIsDefinite(w.geometry.value, raster);
  }

  lemma DefiniteWithoutJobIff(contract: RenderContract, w: World, raster: LabelRaster)
    ensures var failure := SpoolFailure(contract, w, raster);
            failure.Some? && failure.value.DefinitePreSpool? && !StartsJob(contract, w, raster) <==>
              DefiniteBeforeJob(contract, w, raster)
  {
    hide ValidateFinalDcGeometry, CallbackFailure, PageFailure;
    if w.geometry.Returned? {
      GeometryChangeIsDefinite(w.geometry.value, raster);
    }
  }

  /** FAILED_PRE_SPOOL is recorded over no job exactly for those answers, when its record commits. */
  lemma FailedWithoutJobIff(f: Facts, contract: RenderContract, w: World, raster: LabelRaster)
    requires SpoolEnds(f, contract, w, raster)
    ensures f.row.Some?
    ensures f.row.value.state == FailedPreSpool && f.jobs == [] <==>
              DefiniteBeforeJob(contract, w, raster) && !w.fault(AtFailed).BeforeCommit?
  {
    hide SpoolFailure, StartsJob, DefiniteBeforeJob;
    DefiniteWithoutJobIff(contract, w, raster);
  }

  lemma PageBreaksIff(w: World, raster: LabelRaster, job: int)
    requires WellFormed(raster.image)
    ensures var failure := PageFailure(w, raster, job);
            failure.Some? && !failure.value.DefinitePreSpool? && !failure.value.ProcessDied? <==>
              PageBreaks(w, raster.image.height)
  {
    hide WellFormed;
  }

  lemma AmbiguousWithJobIff(contract: RenderContract, w: World, raster: LabelRaster)
    requires StartsJob(contract, w, raster) && WellFormed(raster.image)
    ensures var failure := SpoolFailure(contract, w, raster);
            failure.Some? && failure.value.Ambiguous? <==> AmbiguousAfterJob(w, raster.image.height)
  {
    hide ValidateFinalDcGeometry, WellFormed, PageFailure, PageBreaks;
    GeometryChangeIsDefinite(w.geometry.value, raster);
    PageBreaksIff(w, raster, JobOf(w, raster));
  }

  /** UNKNOWN_AFTER_SPOOL is recorded over a job exactly for those answers, when its records commit. */
  lemma UnknownWithJobIff(f: Facts, contract: RenderContract, w: World, raster: LabelRaster)
    requires SpoolEnds(f, contract, w, raster) && WellFormed(raster.image)
    ensures IsUnknown(f) && f.jobs != [] <==>
              && StartsJob(contract, w, raster) && AmbiguousAfterJob(w, raster.image.height)
              && UnknownCommits(NamedJob(SpoolFailure(contract, w, raster)), w)
  {
    hide SpoolFailure, AmbiguousAfterJob, WellFormed;
    if StartsJob(contract, w, raster) {
      AmbiguousWithJobIff(contract, w, raster);
    }
  }

  /** Callbacks and Windows raise neither of the two exceptions that speak about spooling. */
  ghost predicate Polite(w: World) {
    WindowsRaisesNoDefinite(w) && !IsDefinite(w.reportJobCreated) && QuietBeforeJob(w) && QuietAfterJob(w)
  }

  /** FAILED_PRE_SPOOL means no job, and UNKNOWN_AFTER_SPOOL means one job with its id stored. */
  ghost predicate RowIsHonest(f: Facts) {
    !DeniesJob(f) && (IsUnknown(f) ==> |f.jobs| == 1 && f.row.value.jobId == Some(f.jobs[0]))
  }

  lemma PoliteWorldsAreToldHonestly(f: Facts, contract: RenderContract, w: World, raster: LabelRaster)
    requires SpoolEnds(f, contract, w, raster) && WellFormed(raster.image) && Polite(w)
    ensures RowIsHonest(f)
  {
    hide SpoolFailure, SpoolEnds, StartsJob;
    JobDeniedIffCallbackRaisesDefinite(f, contract, w, raster);
    if IsUnknown(f) {
      UnknownMeansOneJob(f, contract, w, raster);
    }
  }

  /** The answers with which an execution that is still reversible crosses the boundary and is acknowledged. */
  ghost predicate Approaches(control: Control, contract: RenderContract, w: World, existing: Option<Row>) {
    && ReadyToPrint(control, contract, w)
    && (existing.Some? ==> existing.value.identity == control.identity)
    && w.fault(AtRendered) == NoFault && w.markRendered.Returned?
    && w.fault(AtBoundary) == NoFault && w.beginSpool.Returned?
  }

  /** How an execution that was open ends, by the answers it got. */
  ghost predicate EndsBy(f: Facts, control: Control, contract: RenderContract, w: World, existing: Option<Row>) {
    if Approaches(control, contract, w, existing) then SpoolEnds(f, contract, w, RasterToPrint(contract, w))
    else NothingSpooled(f)
  }

  lemma OpenMeansNothingSpooled(f: Facts, control: Control, contract: RenderContract, w: World, existing: Option<Row>)
    requires EndsBy(f, control, contract, w, existing) && !Closed(f)
    ensures NothingSpooled(f)
    ensures forall g :: NothingSpooled(g) ==> EndsBy(g, control, contract, w, existing)
  {
    hide ReadyToPrint, SpoolFailure, StartsJob;
  }

  /**
   What the end of an execution that reached the spool section means, by answers alone: when it is accepted, when
   FAILED_PRE_SPOOL and UNKNOWN_AFTER_SPOOL stand without a job, when UNKNOWN_AFTER_SPOOL stands with one, and,
   Windows raising nothing of this module's own, that only the callback makes it deny a job.
   */
  ghost predicate SpoolMeans(f: Facts, contract: RenderContract, w: World, raster: LabelRaster) {
    && f.row.Some?
    && (f.row.value.state == SpoolerAccepted <==> Succeeds(contract, w, raster) && AcceptanceCommits(w))
    && (f.row.value.state == FailedPreSpool && f.jobs == [] <==>
          DefiniteBeforeJob(contract, w, raster) && !w.fault(AtFailed).BeforeCommit?)
    && (IsUnknown(f) && f.jobs == [] <==>
          && AmbiguousBeforeJob(contract, w, raster)
          && UnknownCommits(NamedJob(SpoolFailure(contract, w, raster)), w))
    && (IsUnknown(f) && f.jobs != [] <==>
          && StartsJob(contract, w, raster) && AmbiguousAfterJob(w, raster.image.height)
          && UnknownCommits(NamedJob(SpoolFailure(contract, w, raster)), w))
    && (QuietBeforeJob(w) && IsUnknown(f) ==>
          && w.startDoc.Returned? && f.jobs == [w.startDoc.value]
          && (QuietAfterJob(w) ==> f.row.value.jobId == Some(w.startDoc.value)))
    && (WindowsRaisesNoDefinite(w) ==>
          (DeniesJob(f) <==>
             && StartsJob(contract, w, raster) && w.fault(AtJobCreated) == NoFault
             && IsDefinite(w.reportJobCreated) && !w.fault(AtFailed).BeforeCommit?))
  }

  /** What the end of any execution means that was open. */
  ghost predicate EndMeans(f: Facts, control: Control, contract: RenderContract, w: World, existing: Option<Row>) {
    if Approaches(control, contract, w, existing) then SpoolMeans(f, contract, w, RasterToPrint(contract, w))
    else NothingSpooled(f)
  }

  lemma SpoolEndsMean(f: Facts, contract: RenderContract, w: World, raster: LabelRaster)
    requires SpoolEnds(f, contract, w, raster) && WellFormed(raster.image)
    ensures SpoolMeans(f, contract, w, raster)
  {
    hide SpoolEnds, SpoolFailure, Succeeds, StartsJob, AmbiguousBeforeJob, AmbiguousAfterJob, DefiniteBeforeJob;
    hide WindowsRaisesNoDefinite, QuietBeforeJob, QuietAfterJob, WellFormed;
    AcceptedIffWindowsTakesAll(f, contract, w, raster);
    FailedWithoutJobIff(f, contract, w, raster);
    UnknownWithoutJobIff(f, contract, w, raster);
    UnknownWithJobIff(f, contract, w, raster);
    if QuietBeforeJob(w) && IsUnknown(f) {
      UnknownMeansOneJob(f, contract, w, raster);
    }
    if WindowsRaisesNoDefinite(w) {
      JobDeniedIffCallbackRaisesDefinite(f, contract, w, raster);
    }
  }

  lemma EndsMean(f: Facts, control: Control, contract: RenderContract, w: World, existing: Option<Row>)
    requires EndsBy(f, control, contract, w, existing)
    ensures EndMeans(f, control, contract, w, existing)
  {
    hide SpoolEnds, SpoolMeans, ReadyToPrint, WellFormed;
    PreparedIffEverythingAgrees(control, contract, w);
    if Approaches(control, contract, w, existing) {
      SpoolEndsMean(f, contract, w, RasterToPrint(contract, w));
    }
  }

  lemma PoliteCallsAreToldHonestly(f: Facts, control: Control, contract: RenderContract, w: World,
                                   existing: Option<Row>)
    requires EndsBy(f, control, contract, w, existing) && Polite(w)
    ensures RowIsHonest(f)
  {
    hide SpoolEnds, Polite, Prepare, ReadyToPrint, WellFormed;
    PreparedIffEverythingAgrees(control, contract, w);
    if Approaches(control, contract, w, existing) {
      PoliteWorldsAreToldHonestly(f, contract, w, RasterToPrint(contract, w));
    }
  }

  lemma HandlersForgetNoJob(w: World, raster: LabelRaster, job: int)
    requires if job > 0 then job == JobOf(w, raster) else JobOf(w, raster) == 0
    ensures forall exn :: SpoolCatch(exn, job) == SpoolCatch(exn, JobOf(w, raster))
  {
  }

  /** The document is complete and its job recorded. */
  ghost predicate AllDrawn(f: Facts, identity: Identity) {
    Spooling(f, identity) && f.progress == 4 && f.row.value.state == SpoolJobCreated
  }

  /** The page left job, row and counters alone; r and the flags agree; full progress exactly when it returned. */
  ghost predicate PageEndedWith(f: Facts, g: Facts, r: Reply<()>) {
    && g == f.(progress := g.progress, definiteAfterJob := g.definiteAfterJob, ambiguousAfterJob := g.ambiguousAfterJob)
    && (g.definiteAfterJob <==> r.Raised? && r.exn.DefinitePreSpool?)
    && (r.Returned? ==> g.progress == 4 && !g.ambiguousAfterJob)
    && (g.ambiguousAfterJob ==> r.Raised? && r.exn.Ambiguous?)
    && (r.Raised? && r.exn.Ambiguous? && !g.ambiguousAfterJob && f.jobs != [] ==> r.exn.jobId == Some(f.jobs[0]))
  }

  ghost predicate Closed(f: Facts) {
    f.row.Some? && Irreversible(f.row.value.state)
  }

  /** At most the outer handler's one record was added: no verified render, no submission. */
  ghost predicate RejectedAtMost(before: seq<Event>, after: seq<Event>, id: string) {
    || after == before
    || exists row :: after == before + [Committed(id, row)] && row.state in {Blocked, FailedPreSpool}
  }

  /** What the caller is told is what the row says. */
  ghost predicate Told(row: Option<Row>, summary: Summary) {
    && row.Some?
    && row.value.state == summary.state && row.value.errorCode == summary.errorCode
    && (summary.jobId.Some? ==> row.value.jobId == summary.jobId)
  }

  class PhysicalPrintRuntime {
    const replay: AgentPhysicalReplayStore

    constructor (replay: AgentPhysicalReplayStore)
      ensures this.replay == replay
    {
      this.replay := replay;
    }

    /** What the log says about this execution. */
    ghost function Mine(control: Control): Facts
      reads replay
    {
      replay.Facts(control.executionId)
    }

    /** An outside party raised exn inside the spool section. */
    ghost method ObserveRaised(id: string, exn: Exn)
      requires replay.Sound() && replay.Facts(id).row.Some?
      requires Spooling(replay.Facts(id), replay.Facts(id).row.value.identity)
               || AtTheBoundary(replay.Facts(id), replay.Facts(id).row.value.identity)
      modifies replay`log
      ensures replay.Sound()
      ensures replay.Facts(id) == Apply(old(replay.Facts(id)), SpoolRaised(id, exn))
      ensures forall other :: other != id ==> replay.Facts(other) == old(replay.Facts(other))
      ensures old(replay.log) <= replay.log
    {
      HistoryIsTruthful(replay.log, id);
      replay.Observe(SpoolRaised(id, exn));
    }

    /** The callback submit makes once StartDoc has returned a job. */
    method OnJobCreated(control: Control, job: int, w: World) returns (r: Reply<()>)
      requires replay.Sound() && Spooling(Mine(control), control.identity)
      requires Mine(control).jobs == [job] && Mine(control).progress == 0
      modifies replay
      ensures replay.Sound() && old(replay.log) <= replay.log
      ensures forall other :: other != control.executionId ==> replay.Facts(other) == old(replay.Facts(other))
      ensures Spooling(Mine(control), control.identity)
              && Mine(control) == old(Mine(control)).(row := Mine(control).row)
      ensures r.Returned? ==> Mine(control).row.value.state == SpoolJobCreated
      ensures Failure(r) == CallbackFailure(w)
    {
      var id := control.executionId;
      HistoryIsTruthful(replay.log, id);
      ghost var row :=
        Upsert(Mine(control).row, control.identity, SpoolJobCreated, Some(job), Some("QUEUED"), None).value;
      HistorySnocCommit(replay.log, id, row);
      r := replay.Record(id, control.identity, SpoolJobCreated, Some(job), Some("QUEUED"), None, w.fault(AtJobCreated));
      if r.Raised? {
        return;
      }
      r := w.reportJobCreated;
    }

    /** The part of submit inside the try: from the geometry proof to EndDoc. */
    method PrintDocument(control: Control, raster: LabelRaster, w: World) returns (job: int, r: Reply<()>)
      requires replay.Sound() && Spooling(Mine(control), control.identity)
      requires Mine(control).jobs == [] && Mine(control).progress == 0
      modifies replay
      ensures replay.Sound() && old(replay.log) <= replay.log
      ensures forall other :: other != control.executionId ==> replay.Facts(other) == old(replay.Facts(other))
      ensures Mine(control).jobs == if job > 0 then [job] else []
      ensures if job > 0 then job == JobOf(w, raster) else JobOf(w, raster) == 0
      ensures r.Returned? ==> job > 0 && AllDrawn(Mine(control), control.identity)
      ensures r.Raised? ==> LeftSpoolWith(Mine(control), control.identity, SpoolCatch(r.exn, job))
      ensures Failure(r) == DocumentFailure(w, raster)
    {
      hide About, History, PageFailure, CallbackFailure, ValidateFinalDcGeometry;
      var id := control.executionId;
      HistoryIsTruthful(replay.log, id);
      job, r := StartDocument(control, raster, w);
      if r.Raised? {
        return;
      }
      r := OnJobCreated(control, job, w);
      if r.Raised? {
        ObserveRaised(id, r.exn);
        return;
      }
      r := PrintPage(control, raster, job, w);
    }

    /** The geometry proof and StartDoc. */
    method StartDocument(control: Control, raster: LabelRaster, w: World) returns (job: int, r: Reply<()>)
      requires replay.Sound() && Spooling(Mine(control), control.identity)
      requires Mine(control).jobs == [] && Mine(control).progress == 0
      modifies replay`log
      ensures replay.Sound() && old(replay.log) <= replay.log
      ensures forall other :: other != control.executionId ==> replay.Facts(other) == old(replay.Facts(other))
      ensures Failure(r) == StartFailure(w, raster)
      ensures if job > 0 then job == JobOf(w, raster) else JobOf(w, raster) == 0
      ensures r.Returned? ==>
                && job > 0 && Spooling(Mine(control), control.identity)
                && Mine(control) == old(Mine(control)).(jobs := [job])
      ensures r.Raised? ==>
                job <= 0 && Mine(control).jobs == []
                && LeftSpoolWith(Mine(control), control.identity, SpoolCatch(r.exn, job))
    {
      hide About, History, ValidateFinalDcGeometry;
      var id := control.executionId;
      HistoryIsTruthful(replay.log, id);
      if w.geometry.Raised? {
        ObserveRaised(id, w.geometry.exn);
        return 0, Raised(w.geometry.exn);
      }
      var changed := ValidateFinalDcGeometry(w.geometry.value, raster);
      if changed.Some? {
        GeometryChangeIsDefinite(w.geometry.value, raster);
        return 0, Raised(changed.value);
      }
      if w.startDoc.Raised? {
        ObserveRaised(id, w.startDoc.exn);
        return 0, Raised(w.startDoc.exn);
      }
      job := w.startDoc.value;
      if job <= 0 {
        return job, Raised(DefinitePreSpool("GDI_START_DOC_FAILED"));
      }
      replay.Observe(JobStarted(id, job));
      return job, Returned(());
    }

    /** The page of a started document. */
    method PrintPage(control: Control, raster: LabelRaster, job: int, w: World) returns (r: Reply<()>)
      requires replay.Sound() && Spooling(Mine(control), control.identity) && job > 0
      requires Mine(control).jobs == [job] && Mine(control).progress == 0
      requires Mine(control).row.value.state == SpoolJobCreated
      modifies replay`log
      ensures replay.Sound() && old(replay.log) <= replay.log
      ensures forall other :: other != control.executionId ==> replay.Facts(other) == old(replay.Facts(other))
      ensures PageEndedWith(old(Mine(control)), Mine(control), r)
      ensures Failure(r) == PageFailure(w, raster, job)
    {
      hide About, History, EndFailure;
      var id := control.executionId;
      HistoryIsTruthful(replay.log, id);
      if w.startPage.Raised? {
        ObserveRaised(id, w.startPage.exn);
        return Raised(w.startPage.exn);
      }
      if w.startPage.value <= 0 {
        return Raised(Ambiguous("GDI_START_PAGE_FAILED", Some(job)));
      }
      replay.Observe(PageStarted(id));
      var dib := BgrBottomUp(raster.image);
      if dib.Err? {
        ObserveRaised(id, DefinitePreSpool("FINAL_RASTER_INVALID"));
        return Raised(DefinitePreSpool("FINAL_RASTER_INVALID"));
      }
      if w.setDiBits.Raised? {
        ObserveRaised(id, w.setDiBits.exn);
        return Raised(w.setDiBits.exn);
      }
      if w.setDiBits.value != raster.image.height {
        return Raised(Ambiguous("GDI_RASTER_OUTPUT_FAILED", Some(job)));
      }
      replay.Observe(RasterDrawn(id));
      r := EndDocument(control, job, w);
    }

    /** EndPage and EndDoc. */
    method EndDocument(control: Control, job: int, w: World) returns (r: Reply<()>)
      requires replay.Sound() && Spooling(Mine(control), control.identity) && job > 0
      requires Mine(control).jobs == [job] && Mine(control).progress == 2
      requires Mine(control).row.value.state == SpoolJobCreated
      modifies replay`log
      ensures replay.Sound() && old(replay.log) <= replay.log
      ensures forall other :: other != control.executionId ==> replay.Facts(other) == old(replay.Facts(other))
      ensures PageEndedWith(old(Mine(control)), Mine(control), r)
      ensures Failure(r) == EndFailure(w, job)
    {
      hide About, History;
      var id := control.executionId;
      HistoryIsTruthful(replay.log, id);
      if w.endPage.Raised? {
        ObserveRaised(id, w.endPage.exn);
        return Raised(w.endPage.exn);
      }
      if w.endPage.value <= 0 {
        return Raised(Ambiguous("GDI_END_PAGE_FAILED", Some(job)));
      }
      replay.Observe(PageEnded(id));
      if w.endDoc.Raised? {
        ObserveRaised(id, w.endDoc.exn);
        return Raised(w.endDoc.exn);
      }
      if w.endDoc.value <= 0 {
        return Raised(Ambiguous("GDI_END_DOC_FAILED", Some(job)));
      }
      replay.Observe(DocEnded(id));
      return Returned(());
    }

    /** Opening the device context for the queue. */
    method OpenDevice(control: Control, queueName: string, w: World) returns (r: Reply<()>)
      requires replay.Sound() && Spooling(Mine(control), control.identity)
      requires Mine(control).jobs == [] && Mine(control).progress == 0
      modifies replay`log
      ensures replay.Sound() && old(replay.log) <= replay.log
      ensures forall other :: other != control.executionId ==> replay.Facts(other) == old(replay.Facts(other))
      ensures Failure(r) == DeviceFailure(queueName, w)
      ensures r.Returned? ==> Mine(control) == old(Mine(control))
      ensures r.Raised? ==> Mine(control).jobs == [] && LeftSpoolWith(Mine(control), control.identity, r.exn)
    {
      hide About, History;
      var id := control.executionId;
      if queueName == "" {
        return Raised(DefinitePreSpool("LOCAL_PRINTER_QUEUE_UNAVAILABLE"));
      }
      if w.devMode.Raised? {
        ObserveRaised(id, w.devMode.exn);
        return Raised(w.devMode.exn);
      }
      if w.devMode.value.copies != 1 {
        return Raised(DefinitePreSpool("PRINTER_DEVMODE_COPIES_UNSAFE"));
      }
      if w.devMode.value.scalePercent !in {None, Some(100)} {
        return Raised(DefinitePreSpool("PRINTER_DEVMODE_SCALING_UNSAFE"));
      }
      if w.createDc.Raised? {
        ObserveRaised(id, w.createDc.exn);
        return Raised(w.createDc.exn);
      }
      if !w.createDc.value {
        return Raised(DefinitePreSpool("GDI_CREATE_DC_FAILED"));
      }
      return Returned(());
    }

    /** WindowsGdiRasterSpooler.submit, with on_job_created bound to this runtime. */
    method Submit(control: Control, queueName: string, raster: LabelRaster, w: World) returns (r: Reply<int>)
      requires replay.Sound() && AtTheBoundary(Mine(control), control.identity)
      modifies replay
      ensures replay.Sound() && old(replay.log) + [SubmitCalled(control.executionId)] <= replay.log
      ensures forall other :: other != control.executionId ==> replay.Facts(other) == old(replay.Facts(other))
      ensures Failure(r) == SubmitFailure(queueName, w, raster)
      ensures Mine(control).jobs ==
                if DeviceFailure(queueName, w).None? && JobOf(w, raster) > 0 then [JobOf(w, raster)] else []
      ensures r.Returned? ==> AllDrawn(Mine(control), control.identity) && Mine(control).jobs == [r.value]
      ensures r.Raised? ==> LeftSpoolWith(Mine(control), control.identity, r.exn)
    {
      hide About, History, DeviceFailure, DocumentFailure, JobOf;
      var id := control.executionId;
      HistoryIsTruthful(replay.log, id);
      replay.Observe(SubmitCalled(id));
      var device := OpenDevice(control, queueName, w);
      if device.Raised? {
        return Raised(device.exn);
      }
      var job, printed := PrintDocument(control, raster, w);
      HandlersForgetNoJob(w, raster, job);
      return match printed
        case Returned(_) => Returned(job)
        case Raised(exn) => Raised(SpoolCatch(exn, job));
    }

    /** The second resolution and the call into the spooler. */
    method ResolveAndSubmit(control: Control, contract: RenderContract, raster: LabelRaster, w: World)
      returns (r: Reply<int>)
      requires replay.Sound() && AtTheBoundary(Mine(control), control.identity)
      modifies replay
      ensures replay.Sound() && old(replay.log) <= replay.log
      ensures forall other :: other != control.executionId ==> replay.Facts(other) == old(replay.Facts(other))
      ensures Failure(r) == SpoolFailure(contract, w, raster)
      ensures Mine(control).jobs == if StartsJob(contract, w, raster) then [w.startDoc.value] else []
      ensures r.Returned? ==> AllDrawn(Mine(control), control.identity) && Mine(control).jobs == [r.value]
      ensures r.Raised? ==> LeftSpoolWith(Mine(control), control.identity, r.exn)
    {
      hide About, History, SubmitFailure, StartFailure, JobOf, StartsJob;
      var id := control.executionId;
      StartsJobIff(contract, w, raster);
      if w.resolveAgain.Raised? {
        ObserveRaised(id, w.resolveAgain.exn);
        return Raised(w.resolveAgain.exn);
      }
      if w.resolveAgain.value.dpiX != contract.dpiX || w.resolveAgain.value.dpiY != contract.dpiY {
        return Raised(DefinitePreSpool("PRINTER_PROFILE_DPI_CHANGED"));
      }
      r := Submit(control, w.resolveAgain.value.queueName, raster, w);
    }

    /** The handlers and the success path after begin_spool: every recorded outcome of a submission. */
    method Spool(control: Control, contract: RenderContract, raster: LabelRaster, w: World) returns (r: Reply<Summary>)
      requires replay.Sound() && AtTheBoundary(Mine(control), control.identity)
      modifies replay
      ensures replay.Sound() && old(replay.log) <= replay.log
      ensures forall other :: other != control.executionId ==> replay.Facts(other) == old(replay.Facts(other))
      ensures SpoolEnds(Mine(control), contract, w, raster)
      ensures r.Returned? ==> Told(Mine(control).row, r.value)
    {
      hide About, History, Truthful, SpoolFailure, StartsJob;
      var submitted := ResolveAndSubmit(control, contract, raster, w);
      match submitted {
        case Returned(job) => r := RecordAccepted(control, job, w);
        case Raised(exn) =>
          match exn {
            case DefinitePreSpool(code) => r := RecordFailed(control, code, w);
            case Ambiguous(code, jobId) => r := RecordUnknown(control, code, jobId, w);
            case _ => r := Raised(exn);
          }
      }
    }

    method Commit(control: Control, state: ReplayState, jobId: Option<int>, windowsStatus: Option<string>,
                  errorCode: Option<string>, fault: Fault) returns (r: Reply<()>)
      requires replay.Sound()
      requires var u := Upsert(Mine(control).row, control.identity, state, jobId, windowsStatus, errorCode);
               u.Ok? ==> StepOk(Mine(control), Committed(control.executionId, u.value))
      modifies replay
      ensures replay.Sound() && old(replay.log) <= replay.log
      ensures forall other :: other != control.executionId ==> replay.Facts(other) == old(replay.Facts(other))
      ensures var u := Upsert(old(Mine(control)).row, control.identity, state, jobId, windowsStatus, errorCode);
              if fault.BeforeCommit? || u.Err? then
                && replay.log == old(replay.log)
                && r == if fault.BeforeCommit? then Died(fault.dies) else Raised(u.error)
              else
                && replay.log == old(replay.log) + [Committed(control.executionId, u.value)]
                && Mine(control) == old(Mine(control)).(row := Some(u.value))
                && r == if fault.AfterCommit? then Died(fault.dies) else Returned(())
    {
      hide About, History;
      var id := control.executionId;
      ghost var u := Upsert(Mine(control).row, control.identity, state, jobId, windowsStatus, errorCode);
      if u.Ok? {
        HistorySnocCommit(replay.log, id, u.value);
      }
      r := replay.Record(id, control.identity, state, jobId, windowsStatus, errorCode, fault);
    }

    method RecordFailed(control: Control, code: string, w: World) returns (r: Reply<Summary>)
      requires replay.Sound()
      requires LeftSpoolWith(Mine(control), control.identity, DefinitePreSpool(code))
      modifies replay
      ensures replay.Sound() && old(replay.log) <= replay.log
      ensures forall other :: other != control.executionId ==> replay.Facts(other) == old(replay.Facts(other))
      ensures Mine(control).row.Some? && Mine(control) == old(Mine(control)).(row := Mine(control).row)
      ensures Mine(control).row.value.state ==
                if w.fault(AtFailed).BeforeCommit? then old(Mine(control)).row.value.state else FailedPreSpool
      ensures Mine(control).row.value.state == FailedPreSpool ==> Mine(control).row.value.errorCode == Some(code)
      ensures r.Returned? ==> Told(Mine(control).row, r.value)
    {
      hide About, History;
      HistoryIsTruthful(replay.log, control.executionId);
      var recorded := Commit(control, FailedPreSpool, None, None, Some(code), w.fault(AtFailed));
      if recorded.Raised? {
        return Raised(recorded.exn);
      }
      if w.reportOutcome.Raised? {
        return Raised(w.reportOutcome.exn);
      }
      return Returned(Summary(FailedPreSpool, None, Some(code)));
    }

    method RecordUnknown(control: Control, code: string, jobId: Option<int>, w: World) returns (r: Reply<Summary>)
      requires replay.Sound()
      requires LeftSpoolWith(Mine(control), control.identity, Ambiguous(code, jobId))
      modifies replay
      ensures replay.Sound() && old(replay.log) <= replay.log
      ensures forall other :: other != control.executionId ==> replay.Facts(other) == old(replay.Facts(other))
      ensures Mine(control).row.Some? && Mine(control) == old(Mine(control)).(row := Mine(control).row)
      ensures Mine(control).row.value.state in {SpoolSubmitting, SpoolJobCreated, UnknownAfterSpool}
      ensures Mine(control).row.value.state == UnknownAfterSpool <==> UnknownCommits(jobId, w)
      ensures Mine(control).row.value.state == UnknownAfterSpool && jobId.Some? ==>
                Mine(control).row.value.jobId == jobId
      ensures Mine(control).row.value.state == UnknownAfterSpool ==> Mine(control).row.value.errorCode == Some(code)
      ensures r.Returned? ==> Told(Mine(control).row, r.value)
    {
      hide About, History;
      HistoryIsTruthful(replay.log, control.executionId);
      var recorded: Reply<()>;
      if jobId.Some? {
        recorded := Commit(control, SpoolJobCreated, jobId, Some("UNKNOWN"), None, w.fault(AtAmbiguousJob));
        if recorded.Raised? {
          return Raised(recorded.exn);
        }
      }
      HistoryIsTruthful(replay.log, control.executionId);
      recorded := Commit(control, UnknownAfterSpool, jobId, Some("UNKNOWN"), Some(code), w.fault(AtUnknown));
      if recorded.Raised? {
        return Raised(recorded.exn);
      }
      if w.reportOutcome.Raised? {
        return Raised(w.reportOutcome.exn);
      }
      return Returned(Summary(UnknownAfterSpool, jobId, Some(code)));
    }

    method RecordAccepted(control: Control, job: int, w: World) returns (r: Reply<Summary>)
      requires replay.Sound() && AllDrawn(Mine(control), control.identity) && Mine(control).jobs == [job]
      modifies replay
      ensures replay.Sound() && old(replay.log) <= replay.log
      ensures forall other :: other != control.executionId ==> replay.Facts(other) == old(replay.Facts(other))
      ensures Mine(control).row.Some? && Mine(control) == old(Mine(control)).(row := Mine(control).row)
      ensures Mine(control).row.value.state in {SpoolSubmitting, SpoolJobCreated, SpoolerAccepted}
      ensures Mine(control).row.value.state == SpoolerAccepted <==> AcceptanceCommits(w)
      ensures r.Returned? ==> Told(Mine(control).row, r.value)
    {
      hide About, History;
      HistoryIsTruthful(replay.log, control.executionId);
      var recorded := Commit(control, SpoolJobCreated, Some(job), Some("QUEUED"), None, w.fault(AtAcceptedJob));
      if recorded.Raised? {
        return Raised(recorded.exn);
      }
      recorded := Commit(control, SpoolerAccepted, Some(job), Some("QUEUED"), None, w.fault(AtAccepted));
      if recorded.Raised? {
        return Raised(recorded.exn);
      }
      if w.reportOutcome.Raised? {
        return Raised(w.reportOutcome.exn);
      }
      return Returned(Summary(SpoolerAccepted, Some(job), None));
    }

    /** _execute_inner. */
    method ExecuteInner(control: Control, contract: RenderContract, w: World) returns (r: Reply<Summary>)
      requires replay.Sound()
      modifies replay
      ensures replay.Sound() && old(replay.log) <= replay.log
      ensures forall other :: other != control.executionId ==> replay.Facts(other) == old(replay.Facts(other))
      ensures old(Closed(Mine(control))) ==> replay.log == old(replay.log) && r.Raised?
      ensures !old(Closed(Mine(control))) ==> EndsBy(Mine(control), control, contract, w, old(Mine(control)).row)
      ensures r.Returned? ==> Told(Mine(control).row, r.value)
      ensures var prepared := Prepare(control, contract, w);
              prepared.Raised? ==> replay.log == old(replay.log) && r.Raised? && r.exn == prepared.exn
    {
      hide About, History, Truthful, SpoolEnds, Prepare, ReadyToPrint;
      PreparedIffEverythingAgrees(control, contract, w);
      var approached := Approach(control, contract, w);
      if approached.Raised? {
        return Raised(approached.exn);
      }
      r := Spool(control, contract, approached.value, w);
    }

    /** _execute_inner up to the acknowledgement of begin_spool. */
    method Approach(control: Control, contract: RenderContract, w: World) returns (r: Reply<LabelRaster>)
      requires replay.Sound()
      modifies replay
      ensures replay.Sound() && old(replay.log) <= replay.log
      ensures forall other :: other != control.executionId ==> replay.Facts(other) == old(replay.Facts(other))
      ensures old(Closed(Mine(control))) ==> replay.log == old(replay.log) && r.Raised?
      ensures r.Returned? <==>
                !old(Closed(Mine(control))) && Approaches(control, contract, w, old(Mine(control)).row)
      ensures r.Returned? ==>
                AtTheBoundary(Mine(control), control.identity) && r == Returned(RasterToPrint(contract, w))
      ensures r.Raised? && !old(Closed(Mine(control))) ==> NothingSpooled(Mine(control))
      ensures Prepare(control, contract, w).Raised? ==>
                replay.log == old(replay.log) && r == Prepare(control, contract, w)
    {
      hide About, History, Prepare, ReadyToPrint;
      PreparedIffEverythingAgrees(control, contract, w);
      var id := control.executionId;
      HistoryIsTruthful(replay.log, id);
      r := Prepare(control, contract, w);
      if r.Raised? {
        return;
      }
      var recorded := Commit(control, RenderedVerified, None, None, None, w.fault(AtRendered));
      if recorded.Raised? {
        return Raised(recorded.exn);
      }
      if w.markRendered.Raised? {
        return Raised(w.markRendered.exn);
      }
      recorded := CrossSpoolBoundary(control, w);
      if recorded.Raised? {
        return Raised(recorded.exn);
      }
      if w.beginSpool.Raised? {
        return Raised(w.beginSpool.exn);
      }
      replay.Observe(BeginSpoolReturned(id));
    }

    /** cross_spool_boundary: only a durably recorded render verification may become SPOOL_SUBMITTING. */
    method CrossSpoolBoundary(control: Control, w: World) returns (r: Reply<()>)
      requires replay.Sound()
      modifies replay
      ensures replay.Sound() && old(replay.log) <= replay.log
      ensures forall other :: other != control.executionId ==> replay.Facts(other) == old(replay.Facts(other))
      ensures var before, fault := old(Mine(control)), w.fault(AtBoundary);
              if before.row.None? || before.row.value.state != RenderedVerified
                 || before.row.value.identity != control.identity || fault.BeforeCommit? then
                replay.log == old(replay.log) && r.Raised?
              else
                && Mine(control) == before.(row := Some(before.row.value.(state := SpoolSubmitting, errorCode := None)))
                && r == if fault.AfterCommit? then Died(fault.dies) else Returned(())
    {
      hide About, History;
      HistoryIsTruthful(replay.log, control.executionId);
      var existing := replay.Get(control.executionId);
      if existing.None? || existing.value.state != RenderedVerified {
        return Raised(ReplayBlocked);
      }
      r := Commit(control, SpoolSubmitting, None, None, None, w.fault(AtBoundary));
    }

    /** execute: a run of the protocol for one execution id, in any environment. */
    method Execute(control: Control, contract: RenderContract, w: World) returns (r: Reply<Summary>)
      requires replay.Sound()
      modifies replay
      ensures replay.Sound() && old(replay.log) <= replay.log
      ensures forall other :: other != control.executionId ==> replay.Facts(other) == old(replay.Facts(other))
      ensures old(Closed(Mine(control))) ==> replay.log == old(replay.log) && r.Raised?
      ensures !old(Closed(Mine(control))) ==> EndsBy(Mine(control), control, contract, w, old(Mine(control)).row)
      ensures !old(Closed(Mine(control))) ==> EndMeans(Mine(control), control, contract, w, old(Mine(control)).row)
      ensures r.Returned? ==> Told(Mine(control).row, r.value)
      ensures !ReadyToPrint(control, contract, w) ==> RejectedAtMost(old(replay.log), replay.log, control.executionId)
      ensures forall state, code ::
                && !old(Closed(Mine(control))) && StoppedWith(control, contract, w, state, code)
                && (old(Mine(control)).row.Some? ==> old(Mine(control)).row.value.identity == control.identity)
                && w.fault(AtRejected) == NoFault
                ==> Told(Mine(control).row, Summary(state, None, Some(code)))
      ensures forall exn | Unanswered(exn) && StageRaises(control, contract, w, exn) ::
                replay.log == old(replay.log) && r == Raised(exn)
    {
      hide About, History, Truthful, NothingSpooled, EndsBy, EndMeans, Prepare, ReadyToPrint, StoppedWith, StageRaises;
      if !ReadyToPrint(control, contract, w) {
        StoppedOneWay(control, contract, w);
      } else {
        ReadyIsNotStopped(control, contract, w);
      }
      var id := control.executionId;
      forall f | EndsBy(f, control, contract, w, Mine(control).row)
        ensures EndMeans(f, control, contract, w, Mine(control).row)
      {
        EndsMean(f, control, contract, w, Mine(control).row);
      }
      r := ExecuteInner(control, contract, w);
      if r.Returned? {
        return;
      }
      var rejection := Rejection(r.exn);
      if rejection.None? {
        return;
      }
      var existing := replay.Get(id);
      if existing.Some? && Irreversible(existing.value.state) {
        return;
      }
      OpenMeansNothingSpooled(Mine(control), control, contract, w, old(Mine(control)).row);
      var (state, code) := rejection.value;
      r := RecordRejection(control, state, code, w);
    }

    /** The outer handler, for an execution that is still reversible. */
    method RecordRejection(control: Control, state: ReplayState, code: string, w: World) returns (r: Reply<Summary>)
      requires replay.Sound() && NothingSpooled(Mine(control)) && !Closed(Mine(control))
      requires state in {FailedPreSpool, Blocked}
      modifies replay
      ensures replay.Sound() && old(replay.log) <= replay.log
      ensures forall other :: other != control.executionId ==> replay.Facts(other) == old(replay.Facts(other))
      ensures NothingSpooled(Mine(control))
      ensures RejectedAtMost(old(replay.log), replay.log, control.executionId)
      ensures r.Returned? ==> Told(Mine(control).row, r.value)
      ensures w.fault(AtRejected) == NoFault
              && (old(Mine(control)).row.Some? ==> old(Mine(control)).row.value.identity == control.identity)
              ==> Told(Mine(control).row, Summary(state, None, Some(code)))
    {
      hide About, History;
      HistoryIsTruthful(replay.log, control.executionId);
      var recorded := Commit(control, state, None, None, Some(code), w.fault(AtRejected));
      if recorded.Raised? {
        return Raised(recorded.exn);
      }
      if w.reportOutcome.Raised? {
        return Raised(w.reportOutcome.exn);
      }
      return Returned(Summary(state, None, Some(code)));
    }
  }

  /**
   Any run: any sequence of execute calls in any environments on one store, each on a
   fresh runtime as after a restart. Every row tells the truth, nothing irreversible was
   taken back, no identity changed, and no execution was submitted twice. While callbacks and
   Windows stay polite, FAILED_PRE_SPOOL means no job, and UNKNOWN_AFTER_SPOOL one job, its id stored.
   */
  method Run(replay: AgentPhysicalReplayStore, calls: seq<(Control, RenderContract, World)>)
    requires replay.Sound()
    modifies replay
    ensures replay.Sound() && old(replay.log) <= replay.log
    ensures forall id :: Truthful(replay.Facts(id)) && Onward(old(replay.Facts(id)), replay.Facts(id))
    ensures forall i, j | 0 <= i < |replay.log| && 0 <= j < |replay.log|
              && replay.log[i].SubmitCalled? && replay.log[i] == replay.log[j] :: i == j
    ensures (forall n :: 0 <= n < |calls| ==> Polite(calls[n].2)) && old(forall id :: RowIsHonest(replay.Facts(id)))
            ==> forall id :: RowIsHonest(replay.Facts(id))
  {
    hide Truthful, Onward, History, EndsBy, Polite, RowIsHonest;
    ghost var polite :=
      (forall n :: 0 <= n < |calls| ==> Polite(calls[n].2)) && forall id :: RowIsHonest(replay.Facts(id));
    for n := 0 to |calls|
      invariant replay.Sound() && old(replay.log) <= replay.log
      invariant polite ==> forall id :: RowIsHonest(replay.Facts(id))
    {
      var (control, contract, world) := calls[n];
      var runtime := new PhysicalPrintRuntime(replay);
      ghost var before := replay.Facts(control.executionId);
      var _ := runtime.Execute(control, contract, world);
      if polite && !Closed(before) {
        PoliteCallsAreToldHonestly(replay.Facts(control.executionId), control, contract, world, before.row);
      }
    }
    ghost var start, finish := |old(replay.log)|, |replay.log|;
    assert replay.log[..start] == old(replay.log) && replay.log[..finish] == replay.log;
    forall id
      ensures Truthful(replay.Facts(id)) && Onward(old(replay.Facts(id)), replay.Facts(id))
    {
      HistoryIsTruthful(replay.log, id);
      HistoryOnlyMovesOnward(replay.log, start, finish, id);
    }
    forall i, j | 0 <= i < |replay.log| && 0 <= j < |replay.log|
      && replay.log[i].SubmitCalled? && replay.log[i] == replay.log[j]
      ensures i == j
    {
      SubmittedAtMostOnce(replay.log, i, j);
    }
  }

  /** The call in a run of its own, on a new store: FAILED_PRE_SPOOL is recorded over an existing job. */
  method RunRefusedReport() returns (replay: AgentPhysicalReplayStore)
    ensures replay.Sound() && DeniesJob(replay.Facts("execution"))
  {
    hide EndsBy, DeniesJob;
    replay := new AgentPhysicalReplayStore();
    var runtime := new PhysicalPrintRuntime(replay);
    var (control, contract, w) := RefusedReport();
    var _ := runtime.Execute(control, contract, w);
    CallbackCanDenyAJob(replay.Facts("execution"));
  }
}
