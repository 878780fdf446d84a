/**
  The two-job work protocol as a state machine.

  Shared state is the `documents` table, the queue and the `processing_log`.  One walker
  produces messages and any number of processors consume them.  A processor invocation
  handles exactly one message and a message is held by one processor at a time, so the
  program counter of the invocation is stored with the message it holds (`Mail.phase`).

  Every database commit, queue send, queue delete, crash and operator action is one event,
  and events of different processes interleave freely.
*/
module Protocol {
  import opened Base

  const MODEL: string := "typesafe-jev"
  const OVERRIDE_PRESENT: string := "classification_override present"
  const HASH_MISMATCH: string := "content_hash mismatch; walker will re-enqueue"

  const COMMIT_FAILED: string := "Failed to commit processor state change"

  // ---- tables, messages ----

  datatype Status = Queued | Processing | Completed | Skipped | Pending | Failed

  datatype Document = Document(
    syncStateId: nat,
    driveItemId: string,
    fileName: Option<string>,
    mimeType: Option<string>,
    folderPath: Option<string>,
    contentHash: Option<string>,
    previousHash: Option<string>,
    status: Status,
    category: Option<string>,
    confidence: Option<real>,
    classificationOverride: Option<string>,
    classifiedBy: Option<string>,
    rawResponse: Option<string>,
    errorMessage: Option<string>,
    retryCount: nat)

  datatype Source = SharePoint | Filesystem | Blob

  datatype Candidate = Candidate(
    driveItemId: string,
    contentHash: string,
    fileName: Option<string>,
    mimeType: Option<string>,
    folderPath: Option<string>)

  /** The sync row, drive and source a producer hands to the enqueuer with every candidate. */
  datatype Origin = Origin(syncStateId: nat, driveId: string, source: Source)

  datatype Message = Message(
    source: Source,
    documentId: nat,
    syncStateId: nat,
    driveId: string,
    driveItemId: string,
    fileName: string,
    mimeType: string,
    contentHash: string)

  datatype Classification = Classification(category: string, confidence: real, raw: string)

  datatype LogStatus = LogCompleted | LogSkipped | LogFailed

  datatype LogRow = LogRow(
    documentId: nat,
    attempt: nat,
    status: LogStatus,
    category: Option<string>,
    confidence: Option<real>,
    error: Option<string>)

  // ---- processes ----

  /** What the pipeline decided for one delivery (`_run_pipeline` up to the record step). */
  datatype Outcome = Skip(reason: string) | Failure(error: string) | Verdict(classification: Classification)

  /** Where the invocation that holds a message stands; `Ready` and `Gone` are not held. */
  datatype Phase =
    | Ready
    | Received
    | Loaded
    | SawOverride
    | Marked
    | Decided(outcome: Outcome)
    | Written(classification: Classification, applied: bool)
    | Recorded
    | Raised
    | Gone

  datatype Mail = Mail(message: Message, deliveries: nat, phase: Phase)

  /** A log row together with the message whose delivery committed it. */
  datatype Audit = Audit(mail: nat, row: LogRow)

  datatype WalkerPc =
    | AtRest
    | Chosen(origin: Origin, candidate: Candidate, target: Option<nat>)
    | Sending(message: Message)

  /** History of one row: outcomes and resets committed, hashes accepted, work known to be lost. */
  datatype Book = Book(outcomes: nat, resets: nat, accepted: seq<string>, gap: bool)

  /** Row and message ids are positions: rows are never deleted, deleted messages become `Gone`. */
  datatype State = State(
    documents: seq<Document>,
    books: seq<Book>,
    mail: seq<Mail>,
    log: seq<Audit>,
    walker: WalkerPc)

  datatype Event =
    // the walker
    | Look(origin: Origin, candidate: Candidate)
    | Commit
    | Send
    | LoseSend
    | Abandon
    // the processor holding message m
    | Receive(m: nat)
    | Load(m: nat)
    | RecordOverride(m: nat)
    | Mark(m: nat)
    | Decide(m: nat, outcome: Outcome)
    | RecordSkip(m: nat)
    | RecordFailure(m: nat)
    | Upsert(m: nat)
    | LogSuccess(m: nat)
    | Delete(m: nat)
    | Stop(m: nat)
    // the operator
    | SetOverride(r: nat, override: string)
    | Reset(r: nat)

  const INITIAL: State := State([], [], [], [], AtRest)

  // ---- rows by key ----

  predicate HasKey(d: Document, syncStateId: nat, driveItemId: string) {
    d.syncStateId == syncStateId && d.driveItemId == driveItemId
  }

  function Find(documents: seq<Document>, syncStateId: nat, driveItemId: string): (r: Option<nat>)
    ensures r.Some? ==> r.value < |documents| && HasKey(documents[r.value], syncStateId, driveItemId)
    ensures r.None? ==> forall i :: 0 <= i < |documents| ==> !HasKey(documents[i], syncStateId, driveItemId)
  {
    if documents == [] then None
    else
      var n := |documents| - 1;
      var front := Find(documents[..n], syncStateId, driveItemId);
      if front.Some? then front
      else if HasKey(documents[n], syncStateId, driveItemId) then Some(n)
      else
        assert forall i :: 0 <= i < n ==> documents[i] == documents[..n][i];
        None
  }

  // ---- the enqueue decision ----

  predicate InFlight(status: Status) {
    status == Queued || status == Processing
  }

  predicate ShouldEnqueue(document: Option<Document>, newHash: string) {
    if document.None? then true
    else if InFlight(document.value.status) then false
    else if document.value.status == Pending then true
    else document.value.contentHash != Some(newHash)
  }

  function NewDocument(syncStateId: nat, driveItemId: string): Document {
    Document(syncStateId, driveItemId, None, None, None, None, None, Queued,
             None, None, None, None, None, None, 0)
  }

  /** The row after `_upsert_queued_row`; columns it does not name keep their current value. */
  function QueuedRow(d: Document, isNew: bool, c: Candidate): Document {
    d.(previousHash := if !isNew && d.contentHash != Some(c.contentHash) then d.contentHash else d.previousHash,
       fileName := c.fileName,
       mimeType := c.mimeType,
       folderPath := c.folderPath,
       contentHash := Some(c.contentHash),
       status := Queued)
  }

  function BuildMessage(id: nat, d: Document, origin: Origin): Message {
    Message(origin.source, id, d.syncStateId, origin.driveId, d.driveItemId,
            OrEmpty(d.fileName), OrEmpty(d.mimeType), OrEmpty(d.contentHash))
  }

  // ---- small state updates ----

  function SetPhase(s: State, m: nat, phase: Phase): State
    requires m < |s.mail|
  {
    s.(mail := s.mail[m := s.mail[m].(phase := phase)])
  }

  function SetDocument(s: State, r: nat, d: Document): State
    requires r < |s.documents|
  {
    s.(documents := s.documents[r := d])
  }

  function SetBook(s: State, r: nat, b: Book): State
    requires r < |s.books|
  {
    s.(books := s.books[r := b])
  }

  function RowOf(s: State, m: nat): nat
    requires m < |s.mail|
  {
    s.mail[m].message.documentId
  }

  function AddLog(s: State, m: nat, status: LogStatus, c: Option<Classification>, error: Option<string>): State
    requires m < |s.mail|
  {
    s.(log := s.log + [Audit(m, LogRow(RowOf(s, m), s.mail[m].deliveries, status,
                                       if c.Some? then Some(c.value.category) else None,
                                       if c.Some? then Some(c.value.confidence) else None,
                                       error))])
  }

  function CountOutcome(s: State, r: nat): State
    requires r < |s.books|
  {
    SetBook(s, r, s.books[r].(outcomes := s.books[r].outcomes + 1))
  }

  /** One terminal commit of a delivery: row, log row and program counter change together. */
  function Record(s: State, m: nat, d: Document, status: LogStatus, error: string, phase: Phase): State
    requires m < |s.mail| && RowOf(s, m) < |s.documents| == |s.books|
  {
    SetPhase(AddLog(CountOutcome(SetDocument(s, RowOf(s, m), d), RowOf(s, m)), m, status, None, Some(error)), m, phase)
  }

  // ---- the guarded UPSERT ----

  /** The columns that hold a classification result. */
  function WithResult(d: Document, c: Classification): Document {
    d.(category := Some(c.category), confidence := Some(c.confidence), status := Completed,
       classifiedBy := Some(MODEL), rawResponse := Some(c.raw))
  }

  /** INSERT ... ON CONFLICT (sync_state_id, drive_item_id) DO UPDATE ... WHERE classification_override IS NULL */
  function UpsertResult(s: State, m: nat, c: Classification): State
    requires m < |s.mail| && |s.documents| == |s.books|
  {
    var key := s.mail[m].message;
    var hit := Find(s.documents, key.syncStateId, key.driveItemId);
    if hit.None? then
      SetPhase(s.(documents := s.documents + [WithResult(NewDocument(key.syncStateId, key.driveItemId), c)],
                  books := s.books + [Book(1, 0, [], false)]),
               m, Written(c, true))
    else if s.documents[hit.value].classificationOverride.Some? then
      SetPhase(s, m, Written(c, false))
    else
      SetPhase(CountOutcome(SetDocument(s, hit.value, WithResult(s.documents[hit.value], c)), hit.value),
               m, Written(c, true))
  }

  // ---- the walker's steps ----

  function LookUp(s: State, origin: Origin, c: Candidate): State {
    var hit := Find(s.documents, origin.syncStateId, c.driveItemId);
    var existing := if hit.Some? then Some(s.documents[hit.value]) else None;
    s.(walker := if ShouldEnqueue(existing, c.contentHash) then Chosen(origin, c, hit) else AtRest)
  }

  function Accept(b: Book, hash: string): Book {
    if b.accepted != [] && b.accepted[|b.accepted| - 1] == hash then b
    else b.(accepted := b.accepted + [hash])
  }

  function CommitRow(s: State): State
    requires s.walker.Chosen? && |s.documents| == |s.books|
    requires s.walker.target.Some? ==> s.walker.target.value < |s.documents|
  {
    var Chosen(origin, c, target) := s.walker;
    if target.None? then
      var d := QueuedRow(NewDocument(origin.syncStateId, c.driveItemId), true, c);
      s.(documents := s.documents + [d],
         books := s.books + [Book(0, 0, [c.contentHash], false)],
         walker := Sending(BuildMessage(|s.documents|, d, origin)))
    else
      var r := target.value;
      var d := QueuedRow(s.documents[r], false, c);
      SetBook(SetDocument(s, r, d), r, Accept(s.books[r], c.contentHash))
      .(walker := Sending(BuildMessage(r, d, origin)))
  }

  function SendMessage(s: State): State
    requires s.walker.Sending? && s.walker.message.documentId < |s.books|
  {
    var r := s.walker.message.documentId;
    SetBook(s, r, s.books[r].(gap := false))
    .(mail := s.mail + [Mail(s.walker.message, 0, Ready)], walker := AtRest)
  }

  // ---- the step relation ----

  predicate Held(phase: Phase) {
    !phase.Ready? && !phase.Gone?
  }

  /** Mail m exists, its row exists, and the invocation holding it stands at phase `at`. */
  predicate At(s: State, m: nat) {
    m < |s.mail| && RowOf(s, m) < |s.documents| && |s.documents| == |s.books|
  }

  /**
    The pipeline decides once; but when the commit of a hash-mismatch skip raises, the error is
    caught with the other failures of the attempt and recorded as one.
  */
  predicate MayDecide(phase: Phase, o: Outcome) {
    phase.Marked? || (phase == Decided(Skip(HASH_MISMATCH)) && o == Failure(COMMIT_FAILED))
  }

  predicate Enabled(s: State, e: Event) {
    match e
    case Look(_, _) => s.walker.AtRest?
    case Commit =>
      s.walker.Chosen? && |s.documents| == |s.books| &&
      (s.walker.target.Some? ==> s.walker.target.value < |s.documents|)
    case Send => s.walker.Sending? && s.walker.message.documentId < |s.books|
    case LoseSend => s.walker.Sending? && s.walker.message.documentId < |s.books|
    case Abandon => s.walker.Chosen?
    case Receive(m) => m < |s.mail| && s.mail[m].phase.Ready?
    case Load(m) => m < |s.mail| && s.mail[m].phase.Received?
    case RecordOverride(m) => At(s, m) && s.mail[m].phase.SawOverride?
    case Mark(m) => At(s, m) && s.mail[m].phase.Loaded?
    case Decide(m, o) => m < |s.mail| && MayDecide(s.mail[m].phase, o)
    case RecordSkip(m) => At(s, m) && s.mail[m].phase.Decided? && s.mail[m].phase.outcome.Skip?
    case RecordFailure(m) => At(s, m) && s.mail[m].phase.Decided? && s.mail[m].phase.outcome.Failure?
    case Upsert(m) => At(s, m) && s.mail[m].phase.Decided? && s.mail[m].phase.outcome.Verdict?
    case LogSuccess(m) => At(s, m) && s.mail[m].phase.Written?
    case Delete(m) => m < |s.mail| && s.mail[m].phase.Recorded?
    case Stop(m) => m < |s.mail| && Held(s.mail[m].phase)
    case SetOverride(r, _) => r < |s.documents|
    case Reset(r) => r < |s.documents| == |s.books|
  }

  function Apply(s: State, e: Event): State
    requires Enabled(s, e)
  {
    match e
    case Look(origin, c) => LookUp(s, origin, c)
    case Commit => CommitRow(s)
    case Send => SendMessage(s)
    case LoseSend =>
      var r := s.walker.message.documentId;
      SetBook(s, r, s.books[r].(gap := true)).(walker := AtRest)
    case Abandon => s.(walker := AtRest)
    case Receive(m) =>
      s.(mail := s.mail[m := s.mail[m].(deliveries := s.mail[m].deliveries + 1, phase := Received)])
    case Load(m) =>
      SetPhase(s, m,
               if RowOf(s, m) >= |s.documents| then Raised
               else if s.documents[RowOf(s, m)].classificationOverride.Some? then SawOverride
               else Loaded)
    case RecordOverride(m) =>
      Record(s, m, s.documents[RowOf(s, m)].(status := Completed), LogSkipped, OVERRIDE_PRESENT, Recorded)
    case Mark(m) =>
      SetPhase(SetDocument(s, RowOf(s, m), s.documents[RowOf(s, m)].(status := Processing)), m, Marked)
    case Decide(m, o) => SetPhase(s, m, Decided(o))
    case RecordSkip(m) =>
      Record(s, m, s.documents[RowOf(s, m)].(status := Skipped), LogSkipped, s.mail[m].phase.outcome.reason, Recorded)
    case RecordFailure(m) =>
      var d := s.documents[RowOf(s, m)];
      var error := s.mail[m].phase.outcome.error;
      Record(s, m, d.(status := Failed, errorMessage := Some(error), retryCount := d.retryCount + 1),
             LogFailed, error, Raised)
    case Upsert(m) => UpsertResult(s, m, s.mail[m].phase.outcome.classification)
    case LogSuccess(m) =>
      var Written(c, applied) := s.mail[m].phase;
      var b := s.books[RowOf(s, m)];
      var noted := SetBook(s, RowOf(s, m), b.(gap := b.gap || !applied));
      SetPhase(AddLog(noted, m, LogCompleted, Some(c), None), m, Recorded)
    case Delete(m) => SetPhase(s, m, Gone)
    case Stop(m) => SetPhase(s, m, Ready)
    case SetOverride(r, override) => SetDocument(s, r, s.documents[r].(classificationOverride := Some(override)))
    case Reset(r) =>
      SetBook(SetDocument(s, r, s.documents[r].(status := Pending)), r,
              s.books[r].(resets := s.books[r].resets + 1, gap := false))
  }

  // ---- runs ----

  predicate CanRun(s: State, es: seq<Event>)
    decreases |es|, 0
  {
    es == [] ||
    (CanRun(s, es[..|es| - 1]) && Enabled(Exec(s, es[..|es| - 1]), es[|es| - 1]))
  }

  function Exec(s: State, es: seq<Event>): State
    requires CanRun(s, es)
    decreases |es|, 1
  {
    if es == [] then s else Apply(Exec(s, es[..|es| - 1]), es[|es| - 1])
  }
}
