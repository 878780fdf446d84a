/**
  Claims one might expect of the protocol that do not hold: for each a reachable state that shows
  it, and beside it the exact condition under which the step in question does what is expected.
*/
module Scenarios {
  import opened Base
  import opened Protocol
  import opened Safety
  import opened Interleaving
  import opened Enqueuers
  import opened Enumeration
  import opened Dispatch
  import opened Results

  const HERE: Origin := Origin(0, "drive", Filesystem)

  function Version(hash: string): Candidate {
    Candidate("a.txt", hash, Some("a.txt"), Some("text/plain"), None)
  }

  lemma Reached(s: State, e: Event)
    requires Reachable(s) && Enabled(s, e)
    ensures Reachable(Apply(s, e))
  {
    var es :| CanRun(INITIAL, es) && Exec(INITIAL, es) == s;
    RunSnoc(INITIAL, es, e);
  }

  /** One document, queued with one message on its way. */
  lemma FirstQueued(hash: string) returns (s: State)
    ensures Reachable(s) && s.walker.AtRest?
    ensures |s.documents| == |s.books| == |s.mail| == 1
    ensures HasKey(s.documents[0], 0, "a.txt") && s.documents[0].status == Queued
    ensures s.documents[0].contentHash == Some(hash) && s.documents[0].category == None
    ensures s.documents[0].classificationOverride == None && s.documents[0].retryCount == 0 && s.log == []
    ensures s.mail[0].phase == Ready && RowOf(s, 0) == 0 && s.mail[0].message.contentHash == hash
    ensures s.mail[0].message.syncStateId == 0 && s.mail[0].message.driveItemId == "a.txt"
  {
    assert CanRun(INITIAL, []) && Exec(INITIAL, []) == INITIAL;
    var looked := Apply(INITIAL, Look(HERE, Version(hash)));
    Reached(INITIAL, Look(HERE, Version(hash)));
    Reached(looked, Commit);
    s := Apply(Apply(looked, Commit), Send);
    Reached(Apply(looked, Commit), Send);
  }

  /** Deliver message m up to the point where its outcome is decided. */
  lemma Decided(s: State, m: nat, o: Outcome) returns (t: State)
    requires Reachable(s) && m < |s.mail| && s.mail[m].phase == Ready
    requires RowOf(s, m) < |s.documents| == |s.books| && s.documents[RowOf(s, m)].classificationOverride == None
    ensures Reachable(t) && t.walker == s.walker && t.log == s.log && t.books == s.books
    ensures t.documents == s.documents[RowOf(s, m) := s.documents[RowOf(s, m)].(status := Processing)]
    ensures t.mail == s.mail[m := s.mail[m].(deliveries := s.mail[m].deliveries + 1, phase := Phase.Decided(o))]
  {
    hide Reachable;
    var loaded := Loaded(s, m);
    var marked := Apply(loaded, Mark(m));
    Reached(loaded, Mark(m));
    t := Apply(marked, Decide(m, o));
    Reached(marked, Decide(m, o));
  }

  lemma Loaded(s: State, m: nat) returns (t: State)
    requires Reachable(s) && m < |s.mail| && s.mail[m].phase == Ready
    requires RowOf(s, m) < |s.documents| == |s.books| && s.documents[RowOf(s, m)].classificationOverride == None
    ensures Reachable(t) && t.walker == s.walker && t.log == s.log && t.books == s.books && t.documents == s.documents
    ensures t.mail == s.mail[m := s.mail[m].(deliveries := s.mail[m].deliveries + 1, phase := Phase.Loaded)]
  {
    hide Reachable;
    var received := Apply(s, Receive(m));
    Reached(s, Receive(m));
    t := Apply(received, Load(m));
    Reached(received, Load(m));
  }

  lemma ReachableIsSafe(s: State)
    requires Reachable(s)
    ensures Safe(s)
  {
    var es :| CanRun(INITIAL, es) && Exec(INITIAL, es) == s;
    RunIsSafe(INITIAL, es);
  }

  /** Finish a decided verdict: UPSERT, log, delete. */
  lemma Finished(s: State, m: nat, c: Classification) returns (t: State)
    requires Reachable(s) && Identity(s) && m < |s.mail| && s.mail[m].phase == Phase.Decided(Verdict(c))
    requires s.documents[RowOf(s, m)].classificationOverride == None
    ensures Reachable(t) && t.walker == s.walker
    ensures t.documents == s.documents[RowOf(s, m) := WithResult(s.documents[RowOf(s, m)], c)]
    ensures |t.books| == |s.books| && t.mail == s.mail[m := s.mail[m].(phase := Gone)]
  {
    UpsertHits(s, m);
    var s1 := Apply(s, Upsert(m));
    Reached(s, Upsert(m));
    var s2 := Apply(s1, LogSuccess(m));
    Reached(s1, LogSuccess(m));
    t := Apply(s2, Delete(m));
    Reached(s2, Delete(m));
  }

  /** A document at rest that is due is queued again with a new message. */
  lemma Requeued(s: State, hash: string) returns (t: State)
    requires Reachable(s) && s.walker.AtRest? && |s.documents| == |s.books| == 1
    requires HasKey(s.documents[0], 0, "a.txt") && ShouldEnqueue(Some(s.documents[0]), hash)
    ensures Reachable(t) && t.walker.AtRest?
    ensures t.documents == [QueuedRow(s.documents[0], false, Version(hash))] && |t.books| == 1
    ensures |t.mail| == |s.mail| + 1 && t.mail[..|s.mail|] == s.mail
    ensures t.mail[|s.mail|].phase == Ready && RowOf(t, |s.mail|) == 0
  {
    var s1 := Apply(s, Look(HERE, Version(hash)));
    Reached(s, Look(HERE, Version(hash)));
    assert s1.walker == Chosen(HERE, Version(hash), Some(0));
    var s2 := Apply(s1, Commit);
    Reached(s1, Commit);
    t := Apply(s2, Send);
    Reached(s2, Send);
  }

  /** Nothing happens to a row at rest that already carries the seen hash. */
  lemma NothingToDo(s: State, hash: string)
    requires s.walker.AtRest? && |s.documents| == |s.books| == 1 && HasKey(s.documents[0], 0, "a.txt")
    requires s.documents[0].contentHash == Some(hash) && s.documents[0].status != Pending
    ensures Visit(s, HERE, Version(hash)) == s
  {
    assert Find(s.documents, 0, "a.txt") == Some(0);
  }

  // ---- more than one message for a row ----

  /** A failed row whose content changes gets a second message while the first is still on the queue. */
  lemma TwoMessagesForOneRow() returns (s: State)
    ensures Reachable(s)
    ensures |s.mail| == 2 && RowOf(s, 0) == RowOf(s, 1) && s.mail[0].phase == s.mail[1].phase == Ready
  {
    var failed := FailedOnce();
    s := Requeued(failed, "h2");
    assert s.mail[0] == s.mail[..1][0] == failed.mail[0];
  }

  /** No two undeleted messages name the same row. */
  ghost predicate OneMail(s: State) {
    forall i, j :: 0 <= i < j < |s.mail| && RowOf(s, i) == RowOf(s, j) ==>
      s.mail[i].phase.Gone? || s.mail[j].phase.Gone?
  }

  /**
    From a state with at most one message per row, looking at an item leads to a second one exactly
    when its row is due although an undeleted message names it: one of a failed or of a reset row, or
    one whose outcome is recorded and whose delete is still to come.
  */
  lemma SecondMessageExactly(s: State, origin: Origin, c: Candidate)
    requires Identity(s) && s.walker.AtRest? && OneMail(s)
    ensures var hit := Find(s.documents, origin.syncStateId, c.driveItemId);
      OneMail(Visit(s, origin, c)) <==>
        !(hit.Some? && ShouldEnqueue(Some(s.documents[hit.value]), c.contentHash) && HasMail(s, hit.value))
  {
    VisitEffect(s, origin, c);
    var t := Visit(s, origin, c);
    if |t.mail| > |s.mail| {
      hide Visit, ShouldEnqueue, Find;
      var n := |s.mail|;
      assert forall m :: 0 <= m < n ==> t.mail[m] == t.mail[..n][m] == s.mail[m];
      SentFor(s, origin, c);
      var hit := Find(s.documents, origin.syncStateId, c.driveItemId);
      if hit.Some? && HasMail(s, hit.value) {
        var m :| 0 <= m < n && RowOf(s, m) == hit.value && !s.mail[m].phase.Gone?;
        assert RowOf(t, m) == RowOf(t, n);
      }
    }
  }

  /** The message a visit sends names the candidate's row, old or new. */
  lemma SentFor(s: State, origin: Origin, c: Candidate)
    requires Identity(s) && s.walker.AtRest? && |Visit(s, origin, c).mail| > |s.mail|
    ensures var hit := Find(s.documents, origin.syncStateId, c.driveItemId);
      RowOf(Visit(s, origin, c), |s.mail|) == if hit.Some? then hit.value else |s.documents|
    ensures forall m :: 0 <= m < |s.mail| ==> RowOf(s, m) < |s.documents|
  {
  }

  lemma FailedOnce() returns (s: State)
    ensures Reachable(s) && s.walker.AtRest? && |s.documents| == |s.books| == |s.mail| == 1
    ensures HasKey(s.documents[0], 0, "a.txt") && s.documents[0].status == Failed
    ensures s.documents[0].contentHash == Some("h1") && s.documents[0].classificationOverride == None
    ensures s.mail[0].phase == Ready && RowOf(s, 0) == 0
  {
    var s0 := FirstQueued("h1");
    var s1 := Decided(s0, 0, Failure("timeout"));
    Reached(s1, RecordFailure(0));
    Reached(Apply(s1, RecordFailure(0)), Stop(0));
    s := Apply(Apply(s1, RecordFailure(0)), Stop(0));
  }

  // ---- two sends may have nothing recorded between them ----

  /**
    The old message of a failed row is settled between the commit and the send of the new one; the
    row may then be sent again at once.
  */
  lemma SettledBeforeTheSend() returns (before: State, s: State)
    ensures Reachable(before) && IsSending(before, 0) && Enabled(before, Send) && s == Apply(before, Send)
    ensures Reachable(s) && Safe(s) && |s.documents| == 1 && !NextSendIsPaid(s, 0)
  {
    hide Identity, Covered, NextSendIsPaid;
    var sending := SendingAgain();
    var decided := DecidedWhileSending(sending);
    before := Apply(decided, RecordSkip(0));
    Reached(decided, RecordSkip(0));
    s := Apply(before, Send);
    Reached(before, Send);
    ReachableIsSafe(s);
    NextSendIsPaidExactly(s, 0);
  }

  /** The failed row's new content is committed; its old message is still on the queue. */
  lemma SendingAgain() returns (s: State)
    ensures Reachable(s) && IsSending(s, 0) && |s.documents| == |s.books| == |s.mail| == 1
    ensures s.mail[0].phase == Ready && RowOf(s, 0) == 0 && s.documents[0].classificationOverride == None
  {
    hide Reachable;
    var failed := FailedOnce();
    var chosen := Apply(failed, Look(HERE, Version("h2")));
    Reached(failed, Look(HERE, Version("h2")));
    assert chosen.walker == Chosen(HERE, Version("h2"), Some(0));
    s := Apply(chosen, Commit);
    Reached(chosen, Commit);
  }

  lemma DecidedWhileSending(s: State) returns (t: State)
    requires Reachable(s) && IsSending(s, 0) && |s.documents| == |s.books| == |s.mail| == 1
    requires s.mail[0].phase == Ready && RowOf(s, 0) == 0 && s.documents[0].classificationOverride == None
    ensures Reachable(t) && IsSending(t, 0) && |t.documents| == |t.books| == |t.mail| == 1
    ensures t.mail[0].phase == Phase.Decided(Skip(HASH_MISMATCH)) && RowOf(t, 0) == 0
  {
    t := Decided(s, 0, Skip(HASH_MISMATCH));
  }

  // ---- a change is not always picked up ----

  /**
    Looking at an item brings its row up to the seen hash exactly when the row is not in flight
    (or carries that hash already).  A change seen while the row is in flight is dropped.
  */
  lemma ChangeIsPickedUpExactly(s: State, origin: Origin, c: Candidate)
    requires Identity(s) && s.walker.AtRest?
    ensures var row := RowAt(s, origin, c.driveItemId);
      var after := RowAt(Visit(s, origin, c), origin, c.driveItemId);
      (after.Some? && after.value.contentHash == Some(c.contentHash)) <==>
        || row.None?
        || (row.value.status != Queued && row.value.status != Processing)
        || row.value.contentHash == Some(c.contentHash)
  {
    VisitEffect(s, origin, c);
  }

  /** A queued row keeps its old hash although the walker has seen a new one. */
  lemma ChangeInFlightIsDropped() returns (s: State)
    ensures Reachable(s) && s.walker.AtRest? && |s.documents| == |s.books| == 1
    ensures s.documents[0].contentHash == Some("h1")
    ensures Visit(s, HERE, Version("h2")) == s
  {
    s := FirstQueued("h1");
  }

  // ---- a skipped row is not always enqueued again ----

  /** A row at rest is sent again exactly when the seen hash differs from the stored one. */
  lemma RowAtRestIsResentExactly(s: State, origin: Origin, c: Candidate)
    requires Identity(s) && s.walker.AtRest?
    requires var row := RowAt(s, origin, c.driveItemId);
      row.Some? && !InFlight(row.value.status) && row.value.status != Pending
    ensures var t := Visit(s, origin, c);
      |t.mail| > |s.mail| <==> RowAt(s, origin, c.driveItemId).value.contentHash != Some(c.contentHash)
  {
    VisitEffect(s, origin, c);
  }

  /** Skipped for a hash mismatch, then the content returns: the row is never classified. */
  lemma SkippedAndForgotten() returns (s: State)
    ensures Reachable(s) && s.walker.AtRest? && |s.documents| == |s.books| == |s.mail| == 1
    ensures s.documents[0].status == Skipped && s.documents[0].category == None && s.mail[0].phase == Gone
    ensures Visit(s, HERE, Version("h1")) == s
  {
    hide Reachable;
    var s0 := FirstQueued("h1");
    var s1 := Decided(s0, 0, Skip(HASH_MISMATCH));
    Reached(s1, RecordSkip(0));
    var s2 := Apply(s1, RecordSkip(0));
    Reached(s2, Delete(0));
    s := Apply(s2, Delete(0));
  }

  // ---- a successful delivery does not always complete its row ----

  /**
    An override set after the processor passed its own check blocks the UPSERT; the message is
    deleted all the same and the row stays `processing`, an orphan until an operator resets it.
  */
  lemma SucceededButStillProcessing() returns (s: State)
    ensures Reachable(s) && |s.documents| == 1 && s.documents[0].status == Processing
    ensures |s.mail| == 1 && s.mail[0].phase == Gone
    ensures |s.log| == 1 && s.log[0].row.status == LogCompleted
    ensures Orphan(s, 0)
  {
    hide Reachable;
    var c := Classification("Invoice", 0.9, "raw");
    var s1 := OverriddenTooLate(c);
    var s2 := UpsertBlocked(s1, c);
    var s3 := Apply(s2, LogSuccess(0));
    Reached(s2, LogSuccess(0));
    s := Apply(s3, Delete(0));
    Reached(s3, Delete(0));
  }

  lemma UpsertBlocked(s: State, c: Classification) returns (t: State)
    requires Reachable(s) && Enabled(s, Upsert(0)) && s.mail[0].phase == Phase.Decided(Verdict(c))
    requires s.documents[RowOf(s, 0)].classificationOverride.Some?
    ensures Reachable(t) && t == s.(mail := s.mail[0 := s.mail[0].(phase := Written(c, false))])
  {
    hide Reachable;
    ReachableIsSafe(s);
    UpsertHits(s, 0);
    t := Apply(s, Upsert(0));
    Reached(s, Upsert(0));
  }

  lemma OverriddenTooLate(c: Classification) returns (s: State)
    ensures Reachable(s) && s.walker.AtRest? && |s.documents| == |s.books| == |s.mail| == 1 && s.log == []
    ensures s.documents[0].status == Processing && s.documents[0].classificationOverride == Some("Contract")
    ensures s.mail[0].phase == Phase.Decided(Verdict(c)) && RowOf(s, 0) == 0
  {
    var s0 := FirstQueued("h1");
    var s1 := Decided(s0, 0, Verdict(c));
    Reached(s1, SetOverride(0, "Contract"));
    s := Apply(s1, SetOverride(0, "Contract"));
  }

  // ---- a stale message is not always skipped ----

  /** The commit of a hash-mismatch skip raises, and the stale message leaves a failed row behind. */
  lemma MismatchRecordedAsFailure() returns (s: State)
    ensures Reachable(s) && |s.documents| == 1 && s.documents[0].status == Failed && s.documents[0].retryCount == 1
    ensures |s.log| == 1 && s.log[0].row.status == LogFailed && s.log[0].row.error == Some(COMMIT_FAILED)
  {
    hide Reachable;
    var s0 := FirstQueued("h1");
    var s1 := Decided(s0, 0, Skip(HASH_MISMATCH));
    Reached(s1, Decide(0, Failure(COMMIT_FAILED)));
    var s2 := Apply(s1, Decide(0, Failure(COMMIT_FAILED)));
    Reached(s2, RecordFailure(0));
    s := Apply(s2, RecordFailure(0));
  }

  // ---- a delivery must not outlive the content it read ----

  /**
    A processor's message names the content its verdict was reached on.  The UPSERT puts the verdict
    beside another hash exactly when no override is set and the row has moved on to another hash.
  */
  lemma StaleUpsertExactly(s: State, m: nat)
    requires Identity(s) && Enabled(s, Upsert(m))
    ensures var t := Apply(s, Upsert(m));
      var c, hash := s.mail[m].phase.outcome.classification, Some(s.mail[m].message.contentHash);
      && |t.documents| == |s.documents| && |t.mail| == |s.mail|
      && ((t.mail[m].phase == Written(c, true) && CarriesResult(t.documents[RowOf(s, m)], c)
           && t.documents[RowOf(s, m)].contentHash != hash)
          <==> (s.documents[RowOf(s, m)].classificationOverride.None?
                && s.documents[RowOf(s, m)].contentHash != hash))
  {
    VerdictCompletes(s, m);
    UpsertHits(s, m);
  }

  /**
    If a reset and a change fall into the middle of a delivery, its late UPSERT overwrites the
    newer verdict: the row ends completed with the new hash and the old classification, no message
    is left, and looking at the current content again changes nothing.
  */
  lemma StaleVerdictWins() returns (s: State)
    ensures Reachable(s) && s.walker.AtRest? && |s.documents| == |s.books| == 1 && |s.mail| == 2
    ensures s.mail[0].phase == s.mail[1].phase == Gone
    ensures s.documents[0].status == Completed && s.documents[0].contentHash == Some("h2")
    ensures s.documents[0].category == Some("verdict on h1")
    ensures Visit(s, HERE, Version("h2")) == s
  {
    hide Visit, Identity, Covered;
    var older, newer := Classification("verdict on h1", 0.9, ""), Classification("verdict on h2", 0.9, "");
    var s1 := ResetMidDelivery(older);
    var s2 := Requeued(s1, "h2");
    assert s2.mail[0] == s2.mail[..1][0] == s1.mail[0];
    var s3 := Decided(s2, 1, Verdict(newer));
    ReachableIsSafe(s3);
    var s4 := Finished(s3, 1, newer);
    ReachableIsSafe(s4);
    s := Finished(s4, 0, older);
    NothingToDo(s, "h2");
  }

  lemma ResetMidDelivery(c: Classification) returns (s: State)
    ensures Reachable(s) && s.walker.AtRest? && |s.documents| == |s.books| == |s.mail| == 1
    ensures HasKey(s.documents[0], 0, "a.txt") && s.documents[0].status == Pending
    ensures s.documents[0].classificationOverride == None
    ensures s.mail[0].phase == Phase.Decided(Verdict(c)) && RowOf(s, 0) == 0
  {
    var s0 := FirstQueued("h1");
    var s1 := Decided(s0, 0, Verdict(c));
    Reached(s1, Reset(0));
    s := Apply(s1, Reset(0));
  }
}
