/** Invariants of the protocol, kept by every event and hence true in every reachable state. */
module Safety {
  import opened Base
  import opened Protocol

  // ---- identity ----

  /** The unique constraint on (sync_state_id, drive_item_id). */
  ghost predicate UniqueKeys(documents: seq<Document>) {
    forall i, j :: 0 <= i < j < |documents| ==>
      !HasKey(documents[i], documents[j].syncStateId, documents[j].driveItemId)
  }

  predicate Names(s: State, msg: Message) {
    msg.documentId < |s.documents| && HasKey(s.documents[msg.documentId], msg.syncStateId, msg.driveItemId)
  }

  ghost predicate WalkerAgrees(s: State) {
    match s.walker
    case AtRest => true
    case Chosen(origin, c, target) => target == Find(s.documents, origin.syncStateId, c.driveItemId)
    case Sending(msg) => Names(s, msg)
  }

  /** Keys are unique and everything that refers to a row names exactly that row's key. */
  ghost predicate Identity(s: State) {
    && |s.books| == |s.documents|
    && UniqueKeys(s.documents)
    && WalkerAgrees(s)
    && forall m :: 0 <= m < |s.mail| ==> Names(s, s.mail[m].message)
  }

  lemma FindIsUnique(documents: seq<Document>, i: nat)
    requires UniqueKeys(documents) && i < |documents|
    ensures Find(documents, documents[i].syncStateId, documents[i].driveItemId) == Some(i)
  {
  }

  lemma FindSameKeys(a: seq<Document>, b: seq<Document>, syncStateId: nat, driveItemId: string)
    requires |a| == |b|
    requires forall i :: 0 <= i < |a| ==> HasKey(a[i], b[i].syncStateId, b[i].driveItemId)
    ensures Find(a, syncStateId, driveItemId) == Find(b, syncStateId, driveItemId)
  {
  }

  /** Same rows and messages, up to the columns and phases that events may change. */
  ghost predicate SameShape(s: State, t: State) {
    && |t.documents| == |s.documents| && |t.books| == |s.books| && |t.mail| == |s.mail|
    && (forall i :: 0 <= i < |s.documents| ==>
          HasKey(s.documents[i], t.documents[i].syncStateId, t.documents[i].driveItemId))
    && (forall m :: 0 <= m < |s.mail| ==> t.mail[m].message == s.mail[m].message)
  }

  lemma UpsertHits(s: State, m: nat)
    requires Identity(s) && m < |s.mail|
    ensures Find(s.documents, s.mail[m].message.syncStateId, s.mail[m].message.driveItemId) == Some(RowOf(s, m))
  {
    FindIsUnique(s.documents, RowOf(s, m));
  }

  lemma ShapeKept(s: State, e: Event)
    requires Identity(s) && Enabled(s, e) && !e.Commit? && !e.Send?
    ensures SameShape(s, Apply(s, e))
  {
    if MailOf(e).Some? {
      MailStepFrame(s, e, MailOf(e).value);
    }
  }

  lemma IdentityKept(s: State, e: Event)
    requires Identity(s) && Enabled(s, e)
    ensures Identity(Apply(s, e))
  {
    var t := Apply(s, e);
    if e.Commit? {
      CommitKeepsIdentity(s);
    } else if e.Send? {
    } else {
      ShapeKept(s, e);
      assert t.walker == s.walker || t.walker.AtRest? || e.Look?;
      if t.walker.Chosen? {
        FindSameKeys(s.documents, t.documents, t.walker.origin.syncStateId, t.walker.candidate.driveItemId);
      }
    }
  }

  lemma CommitKeepsIdentity(s: State)
    requires Identity(s) && Enabled(s, Commit)
    ensures Identity(CommitRow(s))
  {
    var t := CommitRow(s);
    assert forall m :: 0 <= m < |t.mail| ==> t.mail[m] == s.mail[m];
  }

  // ---- no lost work ----

  /**
    The delivery still has to commit an outcome to the row: once an UPSERT has been applied the
    row is already terminal, and a status that waits for work again belongs to another message.
  */
  predicate Open(phase: Phase) {
    !phase.Recorded? && !phase.Gone? && !(phase.Written? && phase.applied)
  }

  /** A message for row r whose outcome is not yet recorded under its current lease. */
  ghost predicate HasOpenMail(s: State, r: nat) {
    exists m :: 0 <= m < |s.mail| && RowOf(s, m) == r && Open(s.mail[m].phase)
  }

  /** A message for row r that has not been deleted. */
  ghost predicate HasMail(s: State, r: nat) {
    exists m :: 0 <= m < |s.mail| && RowOf(s, m) == r && !s.mail[m].phase.Gone?
  }

  predicate IsSending(s: State, r: nat) {
    s.walker.Sending? && s.walker.message.documentId == r
  }

  predicate NeedsMail(status: Status) {
    InFlight(status) || status == Failed
  }

  /** A row that waits for work has an open message, is about to get one, or is in a tracked gap. */
  ghost predicate Covered(s: State)
    requires |s.books| == |s.documents|
  {
    forall r :: 0 <= r < |s.documents| && NeedsMail(s.documents[r].status) ==>
      HasOpenMail(s, r) || IsSending(s, r) || s.books[r].gap
  }

  lemma OpenMailKept(s: State, t: State, r: nat, m: nat)
    requires |s.mail| <= |t.mail| && m < |s.mail| && RowOf(s, m) == r && Open(t.mail[m].phase)
    requires t.mail[m].message == s.mail[m].message
    ensures HasOpenMail(t, r)
  {
    assert RowOf(t, m) == r;
  }

  lemma CoveredKept(s: State, e: Event)
    requires Identity(s) && Enabled(s, e) && Covered(s)
    ensures |Apply(s, e).books| == |Apply(s, e).documents| && Covered(Apply(s, e))
  {
    IdentityKept(s, e);
    var t := Apply(s, e);
    forall r | 0 <= r < |t.documents| && NeedsMail(t.documents[r].status)
      ensures HasOpenMail(t, r) || IsSending(t, r) || t.books[r].gap
    {
      RowCovered(s, e, r);
    }
  }

  lemma RowCovered(s: State, e: Event, r: nat)
    requires Identity(s) && Enabled(s, e) && Covered(s)
    requires r < |Apply(s, e).documents| == |Apply(s, e).books| && NeedsMail(Apply(s, e).documents[r].status)
    ensures HasOpenMail(Apply(s, e), r) || IsSending(Apply(s, e), r) || Apply(s, e).books[r].gap
  {
    if MailOf(e).Some? {
      MailStepCovered(s, e, r, MailOf(e).value);
    } else {
      QueueKept(s, e, r);
      if e.Send? && IsSending(s, r) {
        OpenMailKept(Apply(s, e), Apply(s, e), r, |s.mail|);
      }
    }
  }

  /** Walker and operator steps leave every message that is on the queue alone. */
  lemma QueueKept(s: State, e: Event, r: nat)
    requires Identity(s) && Enabled(s, e) && MailOf(e).None?
    ensures s.mail <= Apply(s, e).mail
    ensures HasOpenMail(s, r) ==> HasOpenMail(Apply(s, e), r)
  {
    if HasOpenMail(s, r) {
      var m :| 0 <= m < |s.mail| && RowOf(s, m) == r && Open(s.mail[m].phase);
      OpenMailKept(s, Apply(s, e), r, m);
    }
  }

  /** The message a processor event belongs to. */
  function MailOf(e: Event): Option<nat> {
    match e
    case Receive(m) => Some(m)
    case Load(m) => Some(m)
    case RecordOverride(m) => Some(m)
    case Mark(m) => Some(m)
    case Decide(m, _) => Some(m)
    case RecordSkip(m) => Some(m)
    case RecordFailure(m) => Some(m)
    case Upsert(m) => Some(m)
    case LogSuccess(m) => Some(m)
    case Delete(m) => Some(m)
    case Stop(m) => Some(m)
    case _ => None
  }

  /** A processor event of mail k touches the queue only at k and the table only at k's row. */
  lemma MailStepFrame(s: State, e: Event, k: nat)
    requires Identity(s) && Enabled(s, e) && MailOf(e) == Some(k)
    ensures k < |s.mail| && SameShape(s, Apply(s, e))
    ensures forall m :: 0 <= m < |s.mail| && m != k ==> Apply(s, e).mail[m] == s.mail[m]
    ensures forall r :: 0 <= r < |s.documents| && r != RowOf(s, k) ==>
              Apply(s, e).documents[r] == s.documents[r] && Apply(s, e).books[r] == s.books[r]
    ensures Apply(s, e).walker == s.walker
  {
    hide Find, UniqueKeys, WalkerAgrees, CommitRow, SendMessage, LookUp;
    match e
    case Upsert(m) => UpsertHits(s, m);
    case _ =>
  }

  /** The row and book of mail k after one of its own events. */
  lemma MailStepRow(s: State, e: Event, k: nat)
    requires Identity(s) && Enabled(s, e) && MailOf(e) == Some(k)
    ensures RowOf(s, k) < |s.documents| == |Apply(s, e).documents| == |Apply(s, e).books| == |s.books|
    ensures k < |Apply(s, e).mail|
    ensures var r := RowOf(s, k); var t := Apply(s, e);
            NeedsMail(t.documents[r].status) ==>
              || Open(t.mail[k].phase)
              || t.books[r].gap
              || (NeedsMail(s.documents[r].status) && !Open(s.mail[k].phase) && t.books[r] == s.books[r])
    ensures var r := RowOf(s, k); s.books[r].gap ==> Apply(s, e).books[r].gap
  {
    hide Find, UniqueKeys, WalkerAgrees, CommitRow, SendMessage, LookUp;
    match e
    case Upsert(m) => UpsertHits(s, m);
    case _ =>
  }

  lemma MailStepCovered(s: State, e: Event, r: nat, k: nat)
    requires Identity(s) && Enabled(s, e) && Covered(s) && MailOf(e) == Some(k)
    requires r < |Apply(s, e).documents| == |Apply(s, e).books| && NeedsMail(Apply(s, e).documents[r].status)
    ensures HasOpenMail(Apply(s, e), r) || IsSending(Apply(s, e), r) || Apply(s, e).books[r].gap
  {
    var t := Apply(s, e);
    MailStepFrame(s, e, k);
    MailStepRow(s, e, k);
    if RowOf(s, k) == r && Open(t.mail[k].phase) {
      OpenMailKept(s, t, r, k);
    } else if HasOpenMail(s, r) {
      var m :| 0 <= m < |s.mail| && RowOf(s, m) == r && Open(s.mail[m].phase);
      if m != k {
        OpenMailKept(s, t, r, m);
      }
    }
  }

  // ---- a lost row stays lost until an operator resets it ----

  ghost predicate Orphan(s: State, r: nat) {
    && r < |s.documents|
    && InFlight(s.documents[r].status)
    && (forall m :: 0 <= m < |s.mail| && RowOf(s, m) == r ==> s.mail[m].phase.Gone?)
    && !IsSending(s, r)
    && !(s.walker.Chosen? && s.walker.target == Some(r))
  }

  lemma OrphanKept(s: State, e: Event, r: nat)
    requires Identity(s) && Enabled(s, e) && Orphan(s, r) && e != Reset(r)
    ensures Orphan(Apply(s, e), r)
    ensures Apply(s, e).documents[r].status == s.documents[r].status
    ensures forall m :: |s.mail| <= m < |Apply(s, e).mail| ==> RowOf(Apply(s, e), m) != r
    ensures |Apply(s, e).mail| >= |s.mail|
    ensures forall m :: 0 <= m < |s.mail| ==> RowOf(Apply(s, e), m) == RowOf(s, m)
  {
    if MailOf(e).Some? {
      MailStepFrame(s, e, MailOf(e).value);
    } else if e.Look? {
      var hit := Find(s.documents, e.origin.syncStateId, e.candidate.driveItemId);
      assert hit == Some(r) ==> Apply(s, e).walker.AtRest?;
    } else {
      QueueKept(s, e, r);
      assert forall m :: 0 <= m < |s.mail| ==> Apply(s, e).mail[m] == s.mail[m];
    }
  }

  // ---- over whole runs ----

  ghost predicate Safe(s: State) {
    Identity(s) && Covered(s)
  }

  lemma {:induction false} RunIsSafe(s: State, es: seq<Event>)
    requires Safe(s) && CanRun(s, es)
    ensures Safe(Exec(s, es))
  {
    if es != [] {
      var n := |es| - 1;
      RunIsSafe(s, es[..n]);
      IdentityKept(Exec(s, es[..n]), es[n]);
      CoveredKept(Exec(s, es[..n]), es[n]);
    }
  }

  ghost predicate Reachable(s: State) {
    exists es :: CanRun(INITIAL, es) && Exec(INITIAL, es) == s
  }

  /** In every reachable state the keys agree and no row silently waits for work. */
  lemma NoLostWork(s: State, r: nat)
    requires Reachable(s) && r < |s.documents|
    requires s.documents[r].status in {Queued, Processing, Failed}
    ensures |s.books| == |s.documents|
    ensures
      || (exists m :: 0 <= m < |s.mail| && s.mail[m].message.documentId == r && Undecided(s.mail[m].phase))
      || (s.walker.Sending? && s.walker.message.documentId == r)
      || s.books[r].gap
  {
    var es :| CanRun(INITIAL, es) && Exec(INITIAL, es) == s;
    RunIsSafe(INITIAL, es);
    if HasOpenMail(s, r) {
      var m :| 0 <= m < |s.mail| && RowOf(s, m) == r && Open(s.mail[m].phase);
      assert s.mail[m].message.documentId == r && Undecided(s.mail[m].phase);
    }
  }

  /** On the queue or held, with the outcome of the present delivery not yet committed to the row. */
  predicate Undecided(phase: Phase) {
    match phase
    case Recorded => false
    case Gone => false
    case Written(_, applied) => !applied
    case _ => true
  }

  /** `gap` is history, not a guess: only a lost send or a blocked UPSERT that got logged sets it. */
  lemma GapsAreTracked(s: State, e: Event, r: nat)
    requires Identity(s) && Enabled(s, e) && r < |s.documents| && !s.books[r].gap
    requires |Apply(s, e).books| >= |s.books| && Apply(s, e).books[r].gap
    ensures
      || (e.LoseSend? && IsSending(s, r))
      || (e.LogSuccess? && RowOf(s, e.m) == r && s.mail[e.m].phase.Written? && !s.mail[e.m].phase.applied)
  {
    match e
    case Upsert(m) => UpsertHits(s, m);
    case _ =>
  }

  /** No event but a reset of that very row revives an orphan: it is never sent again and never changes status. */
  lemma {:induction false} OrphansStayLost(s: State, es: seq<Event>, r: nat)
    requires Safe(s) && CanRun(s, es) && Orphan(s, r)
    requires forall i :: 0 <= i < |es| ==> es[i] != Reset(r)
    ensures Orphan(Exec(s, es), r)
    ensures Exec(s, es).documents[r].status == s.documents[r].status
    ensures |Exec(s, es).mail| >= |s.mail|
    ensures forall m :: |s.mail| <= m < |Exec(s, es).mail| ==> RowOf(Exec(s, es), m) != r
  {
    if es != [] {
      var n := |es| - 1;
      OrphansStayLost(s, es[..n], r);
      RunIsSafe(s, es[..n]);
      OrphanKept(Exec(s, es[..n]), es[n], r);
    }
  }

  /**
    The processor's UPSERT always takes the conflict branch on the very row it loaded: it never
    creates a row, and a load never misses.
  */
  lemma UpsertNeverInserts(s: State, m: nat)
    requires Reachable(s) && m < |s.mail|
    ensures RowOf(s, m) < |s.documents|
    ensures Find(s.documents, s.mail[m].message.syncStateId, s.mail[m].message.driveItemId) == Some(RowOf(s, m))
    ensures Enabled(s, Load(m)) ==> !Apply(s, Load(m)).mail[m].phase.Raised?
    ensures Enabled(s, Upsert(m)) ==> |Apply(s, Upsert(m)).documents| == |s.documents|
  {
    var es :| CanRun(INITIAL, es) && Exec(INITIAL, es) == s;
    RunIsSafe(INITIAL, es);
    UpsertHits(s, m);
  }
}
