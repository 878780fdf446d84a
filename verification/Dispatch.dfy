/** What has to happen between two commits, and between two sends, of the same row. */
module Dispatch {
  import opened Base
  import opened Protocol
  import opened Safety
  import opened Ledger
  import opened Interleaving

  /** Outcomes and resets committed for row r so far; a row not yet created has none. */
  function Credit(s: State, r: nat): nat {
    if r < |s.books| then s.books[r].outcomes + s.books[r].resets else 0
  }

  /** The walker has decided to queue the existing row r and has not committed yet. */
  predicate ChoseRow(s: State, r: nat) {
    s.walker.Chosen? && s.walker.target == Some(r)
  }

  /** One commit is still to be paid for by an outcome or a reset. */
  function Due(s: State, r: nat): nat {
    Bit(r < |s.documents| && InFlight(s.documents[r].status) && !ChoseRow(s, r))
  }

  predicate CommitsRow(s: State, e: Event, r: nat) {
    e.Commit? && (ChoseRow(s, r) || (s.walker.Chosen? && s.walker.target == None && r == |s.documents|))
  }

  /** How often the run queues row r. */
  ghost function Commits(s: State, es: seq<Event>, r: nat): nat
    requires CanRun(s, es)
  {
    if es == [] then 0
    else
      var n := |es| - 1;
      Commits(s, es[..n], r) + Bit(CommitsRow(Exec(s, es[..n]), es[n], r))
  }

  lemma CommitStep(s: State, e: Event, r: nat)
    requires Identity(s) && Enabled(s, e)
    ensures Bit(CommitsRow(s, e, r)) + Due(s, r) + Credit(s, r) <= Credit(Apply(s, e), r) + Due(Apply(s, e), r)
  {
    if MailOf(e).Some? {
      var k := MailOf(e).value;
      MailStepFrame(s, e, k);
      LedgerStep(s, e, k);
    }
  }

  /** Over any run the commits of a row are paid for by outcomes and resets, but for the last one in flight. */
  lemma {:induction false} CommitDiscipline(s: State, es: seq<Event>, r: nat)
    requires Safe(s) && CanRun(s, es)
    ensures Commits(s, es, r) + Due(s, r) + Credit(s, r) <= Credit(Exec(s, es), r) + Due(Exec(s, es), r)
  {
    if es != [] {
      var n := |es| - 1;
      CommitDiscipline(s, es[..n], r);
      RunIsSafe(s, es[..n]);
      CommitStep(Exec(s, es[..n]), es[n], r);
    }
  }

  /** Between two commits of a row an outcome or a reset is recorded for it. */
  lemma BetweenTwoCommits(s: State, r: nat, es: seq<Event>)
    requires Safe(s) && Enabled(s, Commit) && CommitsRow(s, Commit, r)
    requires CanRun(Apply(s, Commit), es) && Commits(Apply(s, Commit), es, r) >= 1
    ensures Credit(Exec(Apply(s, Commit), es), r) > Credit(Apply(s, Commit), r)
  {
    var t := Apply(s, Commit);
    IdentityKept(s, Commit);
    CoveredKept(s, Commit);
    CommitDiscipline(t, es, r);
    assert Due(t, r) == 1;
  }

  // ---- sends ----

  lemma SendStep(s: State, e: Event, r: nat)
    requires Identity(s) && Enabled(s, e)
    ensures Sends(Apply(s, e), r) + Bit(IsSending(Apply(s, e), r)) <=
              Sends(s, r) + Bit(IsSending(s, r)) + Bit(CommitsRow(s, e, r))
    ensures Sends(s, r) <= Sends(Apply(s, e), r)
  {
    hide Sends;
    var t := Apply(s, e);
    if MailOf(e).Some? {
      MailStepFrame(s, e, MailOf(e).value);
      SameSends(s, t, r);
    } else if e.Send? {
      OneMoreSend(s, t, r);
    } else {
      SameSends(s, t, r);
    }
  }

  /** Every send has a commit of its own. */
  lemma {:induction false} SendsAreCommitted(s: State, es: seq<Event>, r: nat)
    requires Safe(s) && CanRun(s, es)
    ensures Sends(Exec(s, es), r) + Bit(IsSending(Exec(s, es), r)) <=
              Sends(s, r) + Bit(IsSending(s, r)) + Commits(s, es, r)
  {
    hide Sends, Apply, CommitsRow;
    if es != [] {
      var n := |es| - 1;
      SendsAreCommitted(s, es[..n], r);
      RunIsSafe(s, es[..n]);
      SendStep(Exec(s, es[..n]), es[n], r);
    }
  }

  /** Whenever row r is sent again, an outcome or a reset has been recorded for it meanwhile. */
  ghost predicate NextSendIsPaid(s: State, r: nat) {
    forall es :: CanRun(s, es) && Sends(Exec(s, es), r) > Sends(s, r) ==> Credit(Exec(s, es), r) > Credit(s, r)
  }

  /**
    After a send (the walker is between items) the next send of the row waits for an outcome or a
    reset exactly when the row is still in flight.  It is not in flight if an earlier message of
    the row was settled between the commit and the send.
  */
  lemma NextSendIsPaidExactly(s: State, r: nat)
    requires Safe(s) && s.walker.AtRest? && r < |s.documents|
    ensures NextSendIsPaid(s, r) <==> InFlight(s.documents[r].status)
  {
    hide Sends, CanRun, Exec, Commits;
    if InFlight(s.documents[r].status) {
      forall es | CanRun(s, es) && Sends(Exec(s, es), r) > Sends(s, r)
        ensures Credit(Exec(s, es), r) > Credit(s, r)
      {
        CommitDiscipline(s, es, r);
        SendsAreCommitted(s, es, r);
      }
    } else {
      var es := ResendFreely(s, r);
    }
  }

  function OtherHash(hash: Option<string>): (other: string)
    ensures hash != Some(other)
  {
    if hash.Some? then (assert |hash.value + "'"| == |hash.value| + 1; hash.value + "'") else ""
  }

  lemma ResendFreely(s: State, r: nat) returns (es: seq<Event>)
    requires Safe(s) && s.walker.AtRest? && r < |s.documents| && !InFlight(s.documents[r].status)
    ensures CanRun(s, es) && Sends(Exec(s, es), r) == Sends(s, r) + 1 && Credit(Exec(s, es), r) == Credit(s, r)
  {
    hide CanRun, Exec, Sends, Covered;
    var d := s.documents[r];
    var origin := Origin(d.syncStateId, "", Filesystem);
    var look := Look(origin, Candidate(d.driveItemId, OtherHash(d.contentHash), None, None, None));
    FindIsUnique(s.documents, r);
    RunNone(s);
    RunSnoc(s, [], look);
    var s1 := Apply(s, look);
    assert ShouldEnqueue(Some(d), look.candidate.contentHash);
    RunSnoc(s, [] + [look], Commit);
    var s2 := Apply(s1, Commit);
    RunSnoc(s, [] + [look] + [Commit], Send);
    OneMoreSend(s2, Apply(s2, Send), r);
    SameSends(s, s2, r);
    es := [] + [look] + [Commit] + [Send];
  }

  lemma RunNone(s: State)
    ensures CanRun(s, []) && Exec(s, []) == s
  {
  }

  // ---- what the history of a row counts ----

  /** Processor m commits an outcome of row r: a skip, a failure, or an UPSERT that no override blocks. */
  predicate CommitsOutcome(s: State, e: Event, r: nat) {
    MailOf(e).Some? && MailOf(e).value < |s.mail| && RowOf(s, MailOf(e).value) == r &&
    match e
    case RecordOverride(_) => true
    case RecordSkip(_) => true
    case RecordFailure(_) => true
    case Upsert(_) => r < |s.documents| && s.documents[r].classificationOverride.None?
    case _ => false
  }

  /** Outcomes and resets are counted once each, and nothing else is. */
  lemma CreditExactly(s: State, e: Event, r: nat)
    requires Identity(s) && Enabled(s, e) && r < |s.documents|
    ensures |Apply(s, e).books| >= |s.books| == |s.documents|
    ensures var b, b' := s.books[r], Apply(s, e).books[r];
      && b'.outcomes == b.outcomes + Bit(CommitsOutcome(s, e, r))
      && b'.resets == b.resets + Bit(e == Reset(r))
  {
    if MailOf(e).Some? {
      UpsertHits(s, MailOf(e).value);
    }
  }

  /** The accepted hashes grow by a new hash exactly when it is committed; a gap ends only by a send or a reset. */
  lemma HistoryExactly(s: State, e: Event, r: nat)
    requires Identity(s) && Enabled(s, e) && r < |s.documents|
    ensures |Apply(s, e).books| >= |s.books| == |s.documents|
    ensures var a, a' := s.books[r].accepted, Apply(s, e).books[r].accepted;
      if e.Commit? && ChoseRow(s, r) then
        var hash := s.walker.candidate.contentHash;
        a' == if a != [] && a[|a| - 1] == hash then a else a + [hash]
      else a' == a
    ensures s.books[r].gap && !Apply(s, e).books[r].gap ==> (e.Send? && IsSending(s, r)) || e == Reset(r)
  {
    if MailOf(e).Some? {
      UpsertHits(s, MailOf(e).value);
    }
  }

  /** A row starts its history when its first commit creates it. */
  lemma CreditStarts(s: State, e: Event)
    requires Identity(s) && Enabled(s, e) && |Apply(s, e).documents| > |s.documents|
    ensures e.Commit? && CommitsRow(s, e, |s.documents|)
    ensures |Apply(s, e).books| == |s.documents| + 1 && Credit(Apply(s, e), |s.documents|) == 0
  {
    if MailOf(e).Some? {
      UpsertHits(s, MailOf(e).value);
    }
  }
}
