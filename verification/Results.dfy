/** The result columns: who may write them, and what a redelivered message leaves in them. */
module Results {
  import opened Base
  import opened Protocol
  import opened Safety

  // ---- override immunity ----

  /** The columns an UPSERT writes besides the status. */
  predicate SameResult(a: Document, b: Document) {
    && a.category == b.category && a.confidence == b.confidence
    && a.classifiedBy == b.classifiedBy && a.rawResponse == b.rawResponse
  }

  predicate CarriesResult(d: Document, c: Classification) {
    && d.category == Some(c.category) && d.confidence == Some(c.confidence)
    && d.classifiedBy == Some(MODEL) && d.rawResponse == Some(c.raw)
  }

  /** One event: results change only through an applied UPSERT, overrides only through the operator. */
  lemma ResultStep(s: State, e: Event, r: nat)
    requires Identity(s) && Enabled(s, e) && r < |s.documents|
    ensures |Apply(s, e).documents| >= |s.documents|
    ensures var d, d' := s.documents[r], Apply(s, e).documents[r];
      && d'.syncStateId == d.syncStateId && d'.driveItemId == d.driveItemId
      && (!e.SetOverride? || e.r != r ==> d'.classificationOverride == d.classificationOverride)
      && (d.classificationOverride.Some? ==> d'.classificationOverride.Some?)
      && (|| SameResult(d', d)
          || (&& d.classificationOverride.None? && e.Upsert? && RowOf(s, e.m) == r
              && CarriesResult(d', s.mail[e.m].phase.outcome.classification)))
  {
    match e
    case Upsert(m) => UpsertHits(s, m);
    case _ =>
  }

  /**
    Over any interleaving a human label is never written by a job, and from the moment it is set
    the result columns are frozen, whatever a processor that loaded the row earlier still does.
  */
  lemma {:induction false} OverrideImmunity(s: State, es: seq<Event>, r: nat)
    requires Safe(s) && CanRun(s, es) && r < |s.documents|
    ensures |Exec(s, es).documents| >= |s.documents|
    ensures (forall i :: 0 <= i < |es| ==> !(es[i].SetOverride? && es[i].r == r)) ==>
              Exec(s, es).documents[r].classificationOverride == s.documents[r].classificationOverride
    ensures s.documents[r].classificationOverride.Some? ==>
              var d, d' := s.documents[r], Exec(s, es).documents[r];
              && d'.classificationOverride.Some?
              && d'.category == d.category && d'.confidence == d.confidence
              && d'.classifiedBy == d.classifiedBy && d'.rawResponse == d.rawResponse
  {
    if es != [] {
      var n := |es| - 1;
      OverrideImmunity(s, es[..n], r);
      RunIsSafe(s, es[..n]);
      ResultStep(Exec(s, es[..n]), es[n], r);
    }
  }

  /** A verdict is applied exactly when no override is set at the instant of the UPSERT; else nothing changes. */
  lemma VerdictCompletes(s: State, m: nat)
    requires Identity(s) && Enabled(s, Upsert(m))
    ensures var d, c, t := s.documents[RowOf(s, m)], s.mail[m].phase.outcome.classification, Apply(s, Upsert(m));
      && |t.documents| == |s.documents| && |t.mail| == |s.mail|
      && t.mail[m].phase == Written(c, d.classificationOverride.None?)
      && (d.classificationOverride.None? ==> t.documents[RowOf(s, m)] == WithResult(d, c))
      && (d.classificationOverride.Some? ==> t.documents == s.documents && t.books == s.books)
      && (d.status != Completed ==>
            (t.documents[RowOf(s, m)].status == Completed <==> d.classificationOverride.None?))
  {
    UpsertHits(s, m);
  }

  // ---- what each step of a processor commits ----

  /** The log row of mail k's present delivery. */
  function LogEntry(s: State, k: nat, status: LogStatus, verdict: Option<Classification>, error: Option<string>): Audit
    requires k < |s.mail|
  {
    var category := if verdict.Some? then Some(verdict.value.category) else None;
    var confidence := if verdict.Some? then Some(verdict.value.confidence) else None;
    Audit(k, LogRow(s.mail[k].message.documentId, s.mail[k].deliveries, status, category, confidence, error))
  }

  /** Skips and failures: one commit of the row's status columns and of one log row. */
  lemma OutcomeCommits(s: State, e: Event, k: nat)
    requires Identity(s) && Enabled(s, e) && MailOf(e) == Some(k)
    requires e.RecordOverride? || e.RecordSkip? || e.RecordFailure?
    ensures k < |s.mail| && RowOf(s, k) < |s.documents|
    ensures e.RecordOverride? ==>
      var t, r := Apply(s, e), RowOf(s, k);
      && t.documents == s.documents[r := s.documents[r].(status := Completed)]
      && t.log == s.log + [LogEntry(s, k, LogSkipped, None, Some("classification_override present"))]
    ensures e.RecordSkip? ==>
      var t, r := Apply(s, e), RowOf(s, k);
      && t.documents == s.documents[r := s.documents[r].(status := Skipped)]
      && t.log == s.log + [LogEntry(s, k, LogSkipped, None, Some(s.mail[k].phase.outcome.reason))]
    ensures e.RecordFailure? ==>
      var t, r := Apply(s, e), RowOf(s, k);
      var d, error := s.documents[r], Some(s.mail[k].phase.outcome.error);
      && t.documents == s.documents[r := d.(status := Failed, errorMessage := error, retryCount := d.retryCount + 1)]
      && t.log == s.log + [LogEntry(s, k, LogFailed, None, error)]
  {
  }

  /** A verdict: the UPSERT fills the result columns alone, the log row follows in a commit of its own. */
  lemma VerdictCommits(s: State, e: Event, k: nat)
    requires Identity(s) && Enabled(s, e) && MailOf(e) == Some(k) && (e.Upsert? || e.LogSuccess?)
    ensures k < |s.mail| && RowOf(s, k) < |s.documents|
    ensures var t, r := Apply(s, e), RowOf(s, k);
      var d := s.documents[r];
      if e.LogSuccess? then
        && t.documents == s.documents
        && t.log == s.log + [LogEntry(s, k, LogCompleted, Some(s.mail[k].phase.classification), None)]
      else
        && t.log == s.log
        && t.documents ==
             if d.classificationOverride.Some? then s.documents
             else
               var c := s.mail[k].phase.outcome.classification;
               s.documents[r := d.(category := Some(c.category), confidence := Some(c.confidence), status := Completed,
                                   classifiedBy := Some("typesafe-jev"), rawResponse := Some(c.raw))]
  {
    UpsertHits(s, k);
  }

  /** The operator's two steps change one column of one row each. */
  lemma OperatorCommits(s: State, e: Event)
    requires Identity(s) && Enabled(s, e) && (e.SetOverride? || e.Reset?)
    ensures e.r < |s.documents| && Apply(s, e).log == s.log && Apply(s, e).mail == s.mail
    ensures Apply(s, e).documents ==
              s.documents[e.r := if e.Reset? then s.documents[e.r].(status := Pending)
                                 else s.documents[e.r].(classificationOverride := Some(e.override))]
  {
  }

  /** Marking sets the status; receiving, loading, deciding, deleting and stopping commit nothing. */
  lemma OtherStepsCommitNothing(s: State, e: Event, k: nat)
    requires Identity(s) && Enabled(s, e) && MailOf(e) == Some(k)
    requires !e.RecordOverride? && !e.RecordSkip? && !e.RecordFailure? && !e.Upsert? && !e.LogSuccess?
    ensures k < |s.mail| && RowOf(s, k) < |s.documents| && Apply(s, e).log == s.log
    ensures var r := RowOf(s, k);
      Apply(s, e).documents ==
        if e.Mark? then s.documents[r := s.documents[r].(status := Processing)] else s.documents
  {
  }

  // ---- the closed label set ----

  predicate Admits(options: set<string>, c: Classification) {
    c.category in options && 0.0 <= c.confidence <= 1.0
  }

  predicate CellAdmitted(options: set<string>, category: Option<string>, confidence: Option<real>) {
    && category.Some? == confidence.Some?
    && (category.Some? ==> category.value in options && 0.0 <= confidence.value <= 1.0)
  }

  ghost predicate AllAdmitted(s: State, options: set<string>) {
    && (forall r :: 0 <= r < |s.documents| ==>
          CellAdmitted(options, s.documents[r].category, s.documents[r].confidence))
    && (forall i :: 0 <= i < |s.log| ==> CellAdmitted(options, s.log[i].row.category, s.log[i].row.confidence))
    && (forall m :: 0 <= m < |s.mail| ==> PhaseAdmitted(options, s.mail[m].phase))
  }

  predicate PhaseAdmitted(options: set<string>, phase: Phase) {
    match phase
    case Decided(Verdict(c)) => Admits(options, c)
    case Written(c, _) => Admits(options, c)
    case _ => true
  }

  /** The log and program counter after a processor event of mail k. */
  lemma MailStepAdmitted(s: State, e: Event, k: nat, options: set<string>)
    requires Identity(s) && Enabled(s, e) && MailOf(e) == Some(k) && k < |s.mail|
    requires PhaseAdmitted(options, s.mail[k].phase)
    requires e.Decide? && e.outcome.Verdict? ==> Admits(options, e.outcome.classification)
    ensures |Apply(s, e).mail| == |s.mail| && PhaseAdmitted(options, Apply(s, e).mail[k].phase)
    ensures var t := Apply(s, e);
      || t.log == s.log
      || (&& |t.log| == |s.log| + 1 && t.log[..|s.log|] == s.log
          && CellAdmitted(options, t.log[|s.log|].row.category, t.log[|s.log|].row.confidence))
  {
    match e
    case Upsert(m) => UpsertHits(s, m);
    case _ =>
  }

  lemma CellKept(s: State, e: Event, options: set<string>, r: nat)
    requires Identity(s) && Enabled(s, e) && AllAdmitted(s, options) && r < |Apply(s, e).documents|
    ensures var d := Apply(s, e).documents[r]; CellAdmitted(options, d.category, d.confidence)
  {
    hide UpsertResult, Record, Identity;
    if r < |s.documents| {
      ResultStep(s, e, r);
    } else {
      NewRowIsBlank(s, e, r);
    }
  }

  lemma NewRowIsBlank(s: State, e: Event, r: nat)
    requires Identity(s) && Enabled(s, e) && |s.documents| <= r < |Apply(s, e).documents|
    ensures var d := Apply(s, e).documents[r]; d.category == None && d.confidence == None
  {
    match e
    case Upsert(m) => UpsertHits(s, m);
    case _ =>
  }

  lemma AdmittedKept(s: State, e: Event, options: set<string>)
    requires Identity(s) && Enabled(s, e) && AllAdmitted(s, options)
    requires e.Decide? && e.outcome.Verdict? ==> Admits(options, e.outcome.classification)
    ensures AllAdmitted(Apply(s, e), options)
  {
    hide CellAdmitted, UpsertResult, Record, Identity;
    var t := Apply(s, e);
    if MailOf(e).Some? {
      var k := MailOf(e).value;
      MailStepFrame(s, e, k);
      MailStepAdmitted(s, e, k, options);
      assert forall i :: 0 <= i < |s.log| ==> t.log[i] == s.log[i];
    } else {
      QueueKept(s, e, 0);
      assert forall m :: 0 <= m < |s.mail| ==> t.mail[m] == s.mail[m];
      assert forall m :: |s.mail| <= m < |t.mail| ==> t.mail[m].phase.Ready?;
    }
    forall r | 0 <= r < |t.documents|
      ensures CellAdmitted(options, t.documents[r].category, t.documents[r].confidence)
    {
      CellKept(s, e, options, r);
    }
  }

  /** If the classifier only returns labels of the answer space, nothing else is ever persisted. */
  lemma {:induction false} LabelsStayClosed(es: seq<Event>, options: set<string>)
    requires CanRun(INITIAL, es)
    requires forall i :: 0 <= i < |es| && es[i].Decide? && es[i].outcome.Verdict? ==>
               Admits(options, es[i].outcome.classification)
    ensures AllAdmitted(Exec(INITIAL, es), options)
  {
    if es != [] {
      var n := |es| - 1;
      LabelsStayClosed(es[..n], options);
      RunIsSafe(INITIAL, es[..n]);
      AdmittedKept(Exec(INITIAL, es[..n]), es[n], options);
    }
  }

  // ---- redelivery ----

  /** Everything but the retry and error columns. */
  function Core(d: Document): Document {
    d.(errorMessage := None, retryCount := 0)
  }

  /** The row one successful delivery with pipeline outcome o leaves behind. */
  function Settle(d: Document, o: Outcome): Document
    requires !o.Failure?
  {
    if d.classificationOverride.Some? then d.(status := Completed)
    else if o.Skip? then d.(status := Skipped)
    else WithResult(d, o.classification)
  }

  function Unlabelled(d: Document): Document {
    Core(d).(status := Queued, category := None, confidence := None, classifiedBy := None, rawResponse := None)
  }

  /** How far the deliveries of one message may have taken its row from d0. */
  predicate Midway(d0: Document, d: Document, phase: Phase, o: Outcome)
    requires !o.Failure?
  {
    && Unlabelled(d) == Unlabelled(d0)
    && (SameResult(d, d0) || SameResult(d, Settle(d0, o)))
    && match phase {
         case SawOverride => d0.classificationOverride.Some?
         case Loaded => d0.classificationOverride.None?
         case Marked => d0.classificationOverride.None?
         case Decided(x) => d0.classificationOverride.None? && (x == o || x.Failure?)
         case Written(c, applied) =>
           d0.classificationOverride.None? && applied && o == Verdict(c) && Core(d) == Core(Settle(d0, o))
         case Recorded => Core(d) == Core(Settle(d0, o))
         case Gone => Core(d) == Core(Settle(d0, o))
         case _ => true
       }
  }

  predicate Undisturbed(s: State, t: State, m: nat)
    requires m < |s.mail| && RowOf(s, m) < |s.documents|
  {
    && SameButOne(s.documents, t.documents, RowOf(s, m))
    && SameButOne(s.mail, t.mail, m)
    && t.mail[m].message == s.mail[m].message
    && t.walker == s.walker
  }

  predicate SameButOne<T(==)>(a: seq<T>, b: seq<T>, k: nat) {
    |a| == |b| && k < |a| && forall i :: 0 <= i < |a| && i != k ==> b[i] == a[i]
  }

  lemma MidwayKept(s: State, e: Event, m: nat, d0: Document, o: Outcome)
    requires Identity(s) && Enabled(s, e) && MailOf(e) == Some(m) && m < |s.mail|
    requires !o.Failure? && (e.Decide? ==> e.outcome == o || e.outcome.Failure?)
    requires Midway(d0, s.documents[RowOf(s, m)], s.mail[m].phase, o)
    ensures |Apply(s, e).documents| == |s.documents| && |Apply(s, e).mail| == |s.mail|
    ensures Midway(d0, Apply(s, e).documents[RowOf(s, m)], Apply(s, e).mail[m].phase, o)
  {
    MailStepFrame(s, e, m);
    match e
    case Upsert(_) => UpsertHits(s, m);
    case _ =>
  }

  /** The event is one of message m itself or leaves m's row alone. */
  predicate Spares(s: State, e: Event, m: nat)
    requires m < |s.mail|
  {
    match e
    case Commit => s.walker.Chosen? ==> s.walker.target != Some(RowOf(s, m))
    case SetOverride(r, _) => r != RowOf(s, m)
    case Reset(r) => r != RowOf(s, m)
    case _ =>
      MailOf(e).Some? && MailOf(e).value < |s.mail| && RowOf(s, MailOf(e).value) == RowOf(s, m) ==> MailOf(e) == Some(m)
  }

  ghost predicate Spared(s: State, es: seq<Event>, m: nat)
    requires CanRun(s, es)
  {
    es == [] ||
    var t := Exec(s, es[..|es| - 1]);
    Spared(s, es[..|es| - 1], m) && m < |t.mail| && Spares(t, es[|es| - 1], m)
  }

  /** Every decision made for message m is o or an attempt that failed. */
  predicate Attempts(es: seq<Event>, m: nat, o: Outcome) {
    forall i :: 0 <= i < |es| && es[i].Decide? && es[i].m == m ==> es[i].outcome == o || es[i].outcome.Failure?
  }

  ghost predicate OnlyOf(es: seq<Event>, m: nat) {
    forall i :: 0 <= i < |es| ==> MailOf(es[i]) == Some(m)
  }

  /** What other processes do to other rows and messages does not show in m or its row. */
  lemma SparedStep(s: State, e: Event, m: nat)
    requires Identity(s) && Enabled(s, e) && m < |s.mail| && Spares(s, e, m) && MailOf(e) != Some(m)
    ensures m < |Apply(s, e).mail| && Apply(s, e).mail[m] == s.mail[m]
    ensures RowOf(s, m) < |s.documents| <= |Apply(s, e).documents|
    ensures Apply(s, e).documents[RowOf(s, m)] == s.documents[RowOf(s, m)]
  {
    if MailOf(e).Some? {
      MailStepFrame(s, e, MailOf(e).value);
    } else {
      QueueKept(s, e, 0);
    }
  }

  /**
    Deliveries of one message, with crashes, failures and repeats in any order and number, while
    everybody else works on other rows.
  */
  lemma {:induction false} DeliveriesStayMidway(s: State, es: seq<Event>, m: nat, o: Outcome)
    requires Safe(s) && CanRun(s, es) && m < |s.mail| && s.mail[m].phase.Ready?
    requires !o.Failure? && Attempts(es, m, o) && Spared(s, es, m)
    ensures RowOf(s, m) < |s.documents| <= |Exec(s, es).documents|
    ensures m < |Exec(s, es).mail| && Exec(s, es).mail[m].message == s.mail[m].message
    ensures Midway(s.documents[RowOf(s, m)], Exec(s, es).documents[RowOf(s, m)], Exec(s, es).mail[m].phase, o)
    ensures OnlyOf(es, m) ==> Undisturbed(s, Exec(s, es), m)
  {
    hide Midway, Apply;
    if es == [] {
      MidwayStart(s, m, o);
    } else {
      var n := |es| - 1;
      var t := Exec(s, es[..n]);
      DeliveriesStayMidway(s, es[..n], m, o);
      RunIsSafe(s, es[..n]);
      if MailOf(es[n]) == Some(m) {
        MailStepFrame(t, es[n], m);
        MidwayKept(t, es[n], m, s.documents[RowOf(s, m)], o);
      } else {
        SparedStep(t, es[n], m);
      }
    }
  }

  lemma MidwayStart(s: State, m: nat, o: Outcome)
    requires Safe(s) && m < |s.mail| && s.mail[m].phase.Ready? && !o.Failure?
    ensures RowOf(s, m) < |s.documents|
    ensures Midway(s.documents[RowOf(s, m)], s.documents[RowOf(s, m)], Ready, o)
  {
  }

  predicate IsGone(s: State, m: nat) {
    m < |s.mail| && s.mail[m].phase.Gone?
  }

  /**
    Redelivery is idempotent: two histories of deliveries of the same message that both end with
    the message deleted leave the same row up to retry and error columns, namely the row of a
    single success, whatever is done to other rows meanwhile.
  */
  lemma RedeliveryIsIdempotent(s: State, es: seq<Event>, once: seq<Event>, m: nat, o: Outcome)
    requires Safe(s) && m < |s.mail| && s.mail[m].phase.Ready? && !o.Failure?
    requires CanRun(s, es) && Spared(s, es, m) && Attempts(es, m, o) && IsGone(Exec(s, es), m)
    requires CanRun(s, once) && Spared(s, once, m) && Attempts(once, m, o) && IsGone(Exec(s, once), m)
    ensures RowOf(s, m) < |s.documents| <= |Exec(s, es).documents| && |s.documents| <= |Exec(s, once).documents|
    ensures Core(Exec(s, es).documents[RowOf(s, m)]) == Core(Exec(s, once).documents[RowOf(s, m)])
    ensures Core(Exec(s, es).documents[RowOf(s, m)]) == Core(Settle(s.documents[RowOf(s, m)], o))
    ensures OnlyOf(es, m) ==> Undisturbed(s, Exec(s, es), m)
  {
    hide Spared, CanRun, Exec;
    DeliveriesStayMidway(s, es, m, o);
    DeliveriesStayMidway(s, once, m, o);
  }
}
