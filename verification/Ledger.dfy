/** What the log, the queue history and the hash columns record about a whole run. */
module Ledger {
  import opened Base
  import opened Protocol
  import opened Safety

  // ---- the processing log against the queue ----

  function Bit(b: bool): nat {
    if b then 1 else 0
  }

  /** Before its outcome is logged: the current delivery has no log row yet. */
  predicate Unlogged(phase: Phase) {
    match phase
    case Received => true
    case Loaded => true
    case SawOverride => true
    case Marked => true
    case Decided(_) => true
    case Written(_, _) => true
    case _ => false
  }

  ghost predicate EntryAgrees(s: State, a: Audit) {
    && a.mail < |s.mail|
    && a.row.documentId == RowOf(s, a.mail)
    && 1 <= a.row.attempt <= s.mail[a.mail].deliveries
    && (Unlogged(s.mail[a.mail].phase) ==> a.row.attempt < s.mail[a.mail].deliveries)
  }

  /** A completed or skipped log row that carries the dequeue count of m's latest delivery. */
  ghost predicate Settled(s: State, m: nat) {
    exists i :: 0 <= i < |s.log| && SettlesAt(s, i, m)
  }

  predicate SettlesAt(s: State, i: nat, m: nat) {
    && i < |s.log| && m < |s.mail|
    && s.log[i].mail == m
    && s.log[i].row.attempt == s.mail[m].deliveries
    && s.log[i].row.status != LogFailed
  }

  ghost predicate Audited(s: State) {
    && (forall i :: 0 <= i < |s.log| ==> EntryAgrees(s, s.log[i]))
    && (forall i, j :: 0 <= i < j < |s.log| ==>
          !(s.log[i].mail == s.log[j].mail && s.log[i].row.attempt == s.log[j].row.attempt))
    && (forall m :: 0 <= m < |s.mail| && (s.mail[m].phase.Recorded? || s.mail[m].phase.Gone?) ==> Settled(s, m))
    && (forall m :: 0 <= m < |s.mail| && Unlogged(s.mail[m].phase) ==> 1 <= s.mail[m].deliveries)
  }

  /** What one processor event does to the log and to the delivery count of its message. */
  lemma LogStep(s: State, e: Event, k: nat)
    requires Identity(s) && Enabled(s, e) && MailOf(e) == Some(k)
    ensures var t := Apply(s, e);
      && k < |s.mail| == |t.mail|
      && (|| t.log == s.log
          || (&& |t.log| == |s.log| + 1 && t.log[..|s.log|] == s.log
              && Unlogged(s.mail[k].phase) && !Unlogged(t.mail[k].phase)
              && t.mail[k].deliveries == s.mail[k].deliveries
              && t.log[|s.log|].mail == k
              && t.log[|s.log|].row.documentId == RowOf(s, k)
              && t.log[|s.log|].row.attempt == s.mail[k].deliveries
              && (t.log[|s.log|].row.status == LogFailed <==> t.mail[k].phase.Raised?)))
    ensures var t := Apply(s, e);
      && t.mail[k].deliveries == s.mail[k].deliveries + Bit(t.mail[k].phase.Received?)
    ensures var t := Apply(s, e);
      && (Unlogged(t.mail[k].phase) ==> Unlogged(s.mail[k].phase) || t.mail[k].phase.Received?)
      && (t.mail[k].phase.Recorded? ==> |t.log| == |s.log| + 1)
      && (t.mail[k].phase.Gone? ==> s.mail[k].phase.Recorded? && t.log == s.log)
  {
    match e
    case Upsert(m) => UpsertHits(s, m);
    case _ =>
  }

  lemma SettledKept(s: State, t: State, m: nat)
    requires m < |s.mail| && |s.mail| <= |t.mail| && t.mail[m].deliveries == s.mail[m].deliveries
    requires s.log <= t.log && Settled(s, m)
    ensures Settled(t, m)
  {
    var i :| 0 <= i < |s.log| && SettlesAt(s, i, m);
    assert SettlesAt(t, i, m);
  }

  lemma AuditedKept(s: State, e: Event)
    requires Identity(s) && Enabled(s, e) && Audited(s)
    ensures Audited(Apply(s, e))
  {
    if MailOf(e).Some? {
      MailStepAudited(s, e, MailOf(e).value);
    } else {
      OtherStepAudited(s, e);
    }
  }

  lemma MailStepAudited(s: State, e: Event, k: nat)
    requires Identity(s) && Enabled(s, e) && Audited(s) && MailOf(e) == Some(k)
    ensures Audited(Apply(s, e))
  {
    var t := Apply(s, e);
    MailStepFrame(s, e, k);
    LogStep(s, e, k);
    MailStepEntries(s, t, k);
    forall m | 0 <= m < |t.mail| && (t.mail[m].phase.Recorded? || t.mail[m].phase.Gone?)
      ensures Settled(t, m)
    {
      if m == k && t.mail[k].phase.Recorded? {
        assert SettlesAt(t, |s.log|, m);
      } else {
        SettledKept(s, t, m);
      }
    }
  }

  lemma MailStepEntries(s: State, t: State, k: nat)
    requires Audited(s) && SameShape(s, t) && k < |s.mail|
    requires forall m :: 0 <= m < |s.mail| && m != k ==> t.mail[m] == s.mail[m]
    requires t.mail[k].deliveries == s.mail[k].deliveries + Bit(t.mail[k].phase.Received?)
    requires Unlogged(t.mail[k].phase) ==> Unlogged(s.mail[k].phase) || t.mail[k].phase.Received?
    requires
      || t.log == s.log
      || (&& |t.log| == |s.log| + 1 && t.log[..|s.log|] == s.log
          && Unlogged(s.mail[k].phase) && !Unlogged(t.mail[k].phase)
          && t.log[|s.log|].mail == k
          && t.log[|s.log|].row.documentId == RowOf(s, k)
          && t.log[|s.log|].row.attempt == s.mail[k].deliveries)
    ensures forall i :: 0 <= i < |t.log| ==> EntryAgrees(t, t.log[i])
    ensures forall i, j :: 0 <= i < j < |t.log| ==>
              !(t.log[i].mail == t.log[j].mail && t.log[i].row.attempt == t.log[j].row.attempt)
  {
    assert forall i :: 0 <= i < |s.log| ==> t.log[i] == s.log[i] && EntryAgrees(s, s.log[i]);
  }

  lemma OtherStepAudited(s: State, e: Event)
    requires Identity(s) && Enabled(s, e) && Audited(s) && MailOf(e).None?
    ensures Audited(Apply(s, e))
  {
    var t := Apply(s, e);
    assert t.log == s.log;
    QueueKept(s, e, 0);
    assert forall m :: 0 <= m < |s.mail| ==> t.mail[m] == s.mail[m];
    assert forall m :: |s.mail| <= m < |t.mail| ==> t.mail[m].phase.Ready?;
    forall m | 0 <= m < |t.mail| && (t.mail[m].phase.Recorded? || t.mail[m].phase.Gone?)
      ensures Settled(t, m)
    {
      SettledKept(s, t, m);
    }
    forall i | 0 <= i < |t.log|
      ensures EntryAgrees(t, t.log[i])
    {
      assert EntryAgrees(s, s.log[i]);
    }
  }

  // ---- counters ----

  ghost function Sends(s: State, r: nat): nat {
    |set m | 0 <= m < |s.mail| && RowOf(s, m) == r|
  }

  ghost function FailedLogs(s: State, r: nat): nat {
    |set i | 0 <= i < |s.log| && s.log[i].row.status == LogFailed && s.log[i].row.documentId == r|
  }

  /** Sends are paid for by the first enqueue, recorded outcomes and operator resets. */
  ghost predicate Paid(s: State, r: nat)
    requires r < |s.documents| == |s.books|
  {
    && Sends(s, r) + Bit(IsSending(s, r)) <=
         s.books[r].outcomes + s.books[r].resets + Bit(InFlight(s.documents[r].status))
    && (s.walker.Chosen? && s.walker.target == Some(r) ==> Sends(s, r) <= s.books[r].outcomes + s.books[r].resets)
  }

  /** The hash columns are the last two entries of the sequence of distinct accepted hashes. */
  ghost predicate HashesAgree(d: Document, b: Book) {
    var n := |b.accepted|;
    && n >= 1
    && (forall i :: 0 < i < n ==> b.accepted[i] != b.accepted[i - 1])
    && d.contentHash == Some(b.accepted[n - 1])
    && d.previousHash == (if n >= 2 then Some(b.accepted[n - 2]) else None)
  }

  ghost predicate RowLedger(s: State, r: nat)
    requires r < |s.documents| == |s.books|
  {
    && Paid(s, r)
    && HashesAgree(s.documents[r], s.books[r])
    && s.documents[r].retryCount == FailedLogs(s, r)
  }

  ghost predicate Balanced(s: State)
    requires |s.books| == |s.documents|
  {
    && (forall r :: 0 <= r < |s.documents| ==> RowLedger(s, r))
    && (forall i :: 0 <= i < |s.log| ==> s.log[i].row.documentId < |s.documents|)
  }

  lemma SameSends(s: State, t: State, r: nat)
    requires |t.mail| == |s.mail| && forall m :: 0 <= m < |s.mail| ==> RowOf(t, m) == RowOf(s, m)
    ensures Sends(t, r) == Sends(s, r)
  {
    assert (set m | 0 <= m < |s.mail| && RowOf(s, m) == r) == (set m | 0 <= m < |t.mail| && RowOf(t, m) == r);
  }

  lemma OneMoreSend(s: State, t: State, r: nat)
    requires |t.mail| == |s.mail| + 1 && t.mail[..|s.mail|] == s.mail
    ensures Sends(t, r) == Sends(s, r) + Bit(RowOf(t, |s.mail|) == r)
  {
    var n := |s.mail|;
    var before := set m | 0 <= m < n && RowOf(s, m) == r;
    assert forall m :: 0 <= m < n ==> t.mail[m] == t.mail[..n][m];
    assert (set m | 0 <= m < |t.mail| && RowOf(t, m) == r) == if RowOf(t, n) == r then before + {n} else before;
  }

  lemma OneMoreLog(s: State, t: State, r: nat)
    requires |t.log| == |s.log| + 1 && t.log[..|s.log|] == s.log
    ensures FailedLogs(t, r) ==
              FailedLogs(s, r) + Bit(t.log[|s.log|].row.documentId == r && t.log[|s.log|].row.status == LogFailed)
  {
    var n := |s.log|;
    var before := set i | 0 <= i < n && s.log[i].row.status == LogFailed && s.log[i].row.documentId == r;
    assert forall i :: 0 <= i < n ==> t.log[i] == t.log[..n][i];
    assert (set i | 0 <= i < |t.log| && t.log[i].row.status == LogFailed && t.log[i].row.documentId == r)
        == if t.log[n].row.documentId == r && t.log[n].row.status == LogFailed then before + {n} else before;
  }

  /** What one processor event does to the ledger columns of its own row. */
  lemma LedgerStep(s: State, e: Event, k: nat)
    requires Identity(s) && Enabled(s, e) && MailOf(e) == Some(k)
    ensures RowOf(s, k) < |s.documents| == |s.books| == |Apply(s, e).documents| == |Apply(s, e).books|
    ensures var r := RowOf(s, k); var d, d' := s.documents[r], Apply(s, e).documents[r];
            var b, b' := s.books[r], Apply(s, e).books[r];
      && d'.contentHash == d.contentHash && d'.previousHash == d.previousHash
      && b'.accepted == b.accepted && b'.resets == b.resets && b.outcomes <= b'.outcomes
      && (InFlight(d.status) && !InFlight(d'.status) ==> b'.outcomes == b.outcomes + 1)
      && d'.retryCount == d.retryCount + Bit(e.RecordFailure?)
    ensures var t := Apply(s, e);
      || (t.log == s.log && !e.RecordFailure?)
      || (   && |t.log| == |s.log| + 1 && t.log[..|s.log|] == s.log
              && t.log[|s.log|].row.documentId == RowOf(s, k)
              && (t.log[|s.log|].row.status == LogFailed <==> e.RecordFailure?))
  {
    match e
    case Upsert(m) => UpsertHits(s, m);
    case _ =>
  }

  lemma BalancedKept(s: State, e: Event)
    requires Identity(s) && Enabled(s, e) && Audited(s) && Balanced(s)
    ensures |Apply(s, e).books| == |Apply(s, e).documents| && Balanced(Apply(s, e))
  {
    IdentityKept(s, e);
    if MailOf(e).Some? {
      MailStepBalanced(s, e, MailOf(e).value);
    } else if e.Send? {
      SendBalanced(s);
    } else if e.Commit? {
      CommitBalanced(s);
    } else {
      forall r | 0 <= r < |s.documents|
        ensures RowLedger(Apply(s, e), r)
      {
        OtherStepRow(s, e, r);
      }
    }
  }

  lemma OtherStepRow(s: State, e: Event, r: nat)
    requires Identity(s) && Enabled(s, e) && Balanced(s) && r < |s.documents|
    requires MailOf(e).None? && !e.Send? && !e.Commit?
    ensures |Apply(s, e).books| == |Apply(s, e).documents| == |s.documents|
    ensures Apply(s, e).log == s.log && RowLedger(Apply(s, e), r)
  {
    hide UpsertResult, Record, CommitRow, SendMessage, Sends, UniqueKeys, WalkerAgrees;
    assert RowLedger(s, r);
    SameSends(s, Apply(s, e), r);
  }

  lemma MailStepBalanced(s: State, e: Event, k: nat)
    requires Identity(s) && Enabled(s, e) && Balanced(s) && MailOf(e) == Some(k)
    ensures |Apply(s, e).books| == |Apply(s, e).documents| && Balanced(Apply(s, e))
  {
    hide Apply, Sends, FailedLogs, HashesAgree, UniqueKeys, WalkerAgrees;
    var t := Apply(s, e);
    MailStepFrame(s, e, k);
    LedgerStep(s, e, k);
    forall r | 0 <= r < |s.documents|
      ensures RowLedger(t, r)
    {
      assert RowLedger(s, r);
      SameSends(s, t, r);
      if |t.log| == |s.log| + 1 {
        OneMoreLog(s, t, r);
      } else {
        SameLogs(s, t, r);
      }
      SameHashes(s.documents[r], t.documents[r], s.books[r], t.books[r]);
    }
    assert forall i :: 0 <= i < |s.log| ==> t.log[i] == s.log[i];
  }

  lemma SameLogs(s: State, t: State, r: nat)
    requires t.log == s.log
    ensures FailedLogs(t, r) == FailedLogs(s, r)
  {
  }

  lemma SameHashes(d: Document, d': Document, b: Book, b': Book)
    requires d'.contentHash == d.contentHash && d'.previousHash == d.previousHash && b'.accepted == b.accepted
    ensures HashesAgree(d, b) ==> HashesAgree(d', b')
  {
  }

  lemma SendBalanced(s: State)
    requires Identity(s) && Enabled(s, Send) && Balanced(s)
    ensures |SendMessage(s).books| == |SendMessage(s).documents| && Balanced(SendMessage(s))
  {
    forall r | 0 <= r < |s.documents|
      ensures RowLedger(SendMessage(s), r)
    {
      assert RowLedger(s, r);
      OneMoreSend(s, SendMessage(s), r);
    }
  }

  lemma CommitBalanced(s: State)
    requires Identity(s) && Enabled(s, Commit) && Balanced(s)
    ensures |CommitRow(s).books| == |CommitRow(s).documents| && Balanced(CommitRow(s))
  {
    var t := CommitRow(s);
    forall r | 0 <= r < |t.documents|
      ensures RowLedger(t, r)
    {
      SameSends(s, t, r);
      if r < |s.documents| {
        CommitOldRow(s, r);
      } else {
        CommitNewRow(s);
      }
    }
  }

  lemma CommitOldRow(s: State, r: nat)
    requires Identity(s) && Enabled(s, Commit) && Balanced(s) && r < |s.documents|
    requires Sends(CommitRow(s), r) == Sends(s, r)
    ensures |CommitRow(s).books| == |CommitRow(s).documents| >= |s.documents|
    ensures RowLedger(CommitRow(s), r)
  {
    hide Sends, FailedLogs, HashesAgree, UniqueKeys, QueuedRow, Accept;
    var t := CommitRow(s);
    assert RowLedger(s, r);
    SameLogs(s, t, r);
    AcceptAgrees(s.documents[r], s.books[r], s.walker.candidate);
  }

  /** Accepting a hash rotates the two columns exactly when it differs from the last one. */
  lemma AcceptAgrees(d: Document, b: Book, c: Candidate)
    requires HashesAgree(d, b)
    ensures HashesAgree(QueuedRow(d, false, c), Accept(b, c.contentHash))
    ensures QueuedRow(d, false, c).status == Queued && QueuedRow(d, false, c).retryCount == d.retryCount
    ensures Accept(b, c.contentHash).outcomes == b.outcomes && Accept(b, c.contentHash).resets == b.resets
  {
  }

  lemma CommitNewRow(s: State)
    requires Identity(s) && Enabled(s, Commit) && Balanced(s) && s.walker.target.None?
    ensures |CommitRow(s).books| == |CommitRow(s).documents| == |s.documents| + 1
    ensures RowLedger(CommitRow(s), |s.documents|)
  {
    var t, r := CommitRow(s), |s.documents|;
    assert (set m | 0 <= m < |t.mail| && RowOf(t, m) == r) == {};
    assert (set i | 0 <= i < |t.log| && t.log[i].row.status == LogFailed && t.log[i].row.documentId == r) == {};
  }

  // ---- over whole runs ----

  ghost predicate Consistent(s: State) {
    Safe(s) && Audited(s) && Balanced(s)
  }

  lemma {:induction false} RunIsConsistent(s: State, es: seq<Event>)
    requires Consistent(s) && CanRun(s, es)
    ensures Consistent(Exec(s, es))
  {
    if es != [] {
      var n := |es| - 1;
      RunIsConsistent(s, es[..n]);
      IdentityKept(Exec(s, es[..n]), es[n]);
      CoveredKept(Exec(s, es[..n]), es[n]);
      AuditedKept(Exec(s, es[..n]), es[n]);
      BalancedKept(Exec(s, es[..n]), es[n]);
    }
  }

  lemma ReachableIsConsistent(s: State)
    requires Reachable(s)
    ensures Consistent(s)
  {
    var es :| CanRun(INITIAL, es) && Exec(INITIAL, es) == s;
    RunIsConsistent(INITIAL, es);
  }

  /**
    A message that left the queue left a completed or skipped log row for its row, carrying the
    dequeue count of the delivery that deleted it, and no two log rows belong to one delivery.
  */
  lemma DeletionDiscipline(s: State, m: nat)
    requires Reachable(s) && m < |s.mail|
    ensures s.mail[m].phase.Gone? || Enabled(s, Delete(m)) ==>
      exists i :: 0 <= i < |s.log| && s.log[i].mail == m && s.log[i].row.documentId == RowOf(s, m)
        && s.log[i].row.attempt == s.mail[m].deliveries && s.log[i].row.status != LogFailed
    ensures forall i, j :: 0 <= i < j < |s.log| && s.log[i].mail == s.log[j].mail ==>
              s.log[i].row.attempt != s.log[j].row.attempt
    ensures s.mail[m].phase.Raised? ==> !Enabled(s, Delete(m))
  {
    ReachableIsConsistent(s);
    if s.mail[m].phase.Gone? || Enabled(s, Delete(m)) {
      var i :| 0 <= i < |s.log| && SettlesAt(s, i, m);
      assert EntryAgrees(s, s.log[i]);
    }
  }

  lemma RetryConservation(s: State, r: nat)
    requires Reachable(s) && r < |s.documents|
    ensures s.documents[r].retryCount == FailedLogs(s, r)
  {
    ReachableIsConsistent(s);
    assert RowLedger(s, r);
  }

  lemma SendDiscipline(s: State, r: nat)
    requires Reachable(s) && r < |s.documents|
    ensures |s.books| == |s.documents|
    ensures Sends(s, r) <= 1 + s.books[r].outcomes + s.books[r].resets
    ensures !InFlight(s.documents[r].status) ==> Sends(s, r) <= s.books[r].outcomes + s.books[r].resets
  {
    ReachableIsConsistent(s);
    assert RowLedger(s, r);
  }

  lemma HashHistory(s: State, r: nat)
    requires Reachable(s) && r < |s.documents|
    ensures |s.books| == |s.documents|
    ensures var d, a := s.documents[r], s.books[r].accepted;
      && |a| >= 1 && d.contentHash == Some(a[|a| - 1])
      && d.previousHash == (if |a| >= 2 then Some(a[|a| - 2]) else None)
      && forall i :: 0 < i < |a| ==> a[i] != a[i - 1]
    ensures s.documents[r].contentHash.Some? && s.documents[r].contentHash != s.documents[r].previousHash
  {
    ReachableIsConsistent(s);
    assert RowLedger(s, r);
    var a := s.books[r].accepted;
    assert |a| >= 2 ==> a[|a| - 1] != a[|a| - 2];
  }
}
