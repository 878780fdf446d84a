/** Full re-enumeration: what one walk over a listing does to the table and the queue. */
module Enumeration {
  import opened Base
  import opened Protocol
  import opened Safety
  import opened Enqueuers

  function VisitAll(s: State, origin: Origin, cs: seq<Candidate>): (t: State)
    requires s.walker.AtRest? && |s.documents| == |s.books|
    ensures t.walker.AtRest? && |t.documents| == |t.books|
  {
    if cs == [] then s else Visit(VisitAll(s, origin, cs[..|cs| - 1]), origin, cs[|cs| - 1])
  }

  function RowAt(s: State, origin: Origin, item: string): Option<Document> {
    var hit := Find(s.documents, origin.syncStateId, item);
    if hit.Some? then Some(s.documents[hit.value]) else None
  }

  /** The row of a candidate's item after one visit, from that row alone. */
  function Visited(row: Option<Document>, origin: Origin, c: Candidate): Option<Document> {
    if !ShouldEnqueue(row, c.contentHash) then row
    else if row.Some? then Some(QueuedRow(row.value, false, c))
    else Some(QueuedRow(NewDocument(origin.syncStateId, c.driveItemId), true, c))
  }

  /** A message without the row id, which depends on the order of insertion. */
  function Strip(msg: Message): Message {
    msg.(documentId := 0)
  }

  function Expected(origin: Origin, c: Candidate): Message {
    Message(origin.source, 0, origin.syncStateId, origin.driveId, c.driveItemId,
            OrEmpty(c.fileName), OrEmpty(c.mimeType), c.contentHash)
  }

  /** One visit changes its own key's row, and sends exactly when the decision says so. */
  lemma VisitEffect(s: State, origin: Origin, c: Candidate)
    requires Identity(s) && s.walker.AtRest?
    ensures var t := Visit(s, origin, c);
      && Identity(t) && t.walker.AtRest?
      && (forall item :: RowAt(t, origin, item) ==
            if item == c.driveItemId then Visited(RowAt(s, origin, item), origin, c) else RowAt(s, origin, item))
    ensures var t := Visit(s, origin, c);
      if ShouldEnqueue(RowAt(s, origin, c.driveItemId), c.contentHash)
      then |t.mail| == |s.mail| + 1 && t.mail[..|s.mail|] == s.mail
           && Strip(t.mail[|s.mail|].message) == Expected(origin, c) && t.mail[|s.mail|].phase.Ready?
      else t == s
  {
    var looked := LookUp(s, origin, c);
    IdentityKept(s, Look(origin, c));
    if !looked.walker.AtRest? {
      IdentityKept(looked, Commit);
      IdentityKept(CommitRow(looked), Send);
      forall item
        ensures RowAt(CommitRow(looked), origin, item) ==
                  if item == c.driveItemId then Visited(RowAt(s, origin, item), origin, c) else RowAt(s, origin, item)
      {
        CommitEffect(looked, origin, c, item);
      }
    }
  }

  /** A visit sends exactly for a new file, a reset row, or a row at rest whose content changed. */
  lemma VisitSendsExactly(s: State, origin: Origin, c: Candidate)
    requires Identity(s) && s.walker.AtRest?
    ensures var row := RowAt(s, origin, c.driveItemId);
      |Visit(s, origin, c).mail| > |s.mail| <==>
        || row.None?
        || row.value.status == Pending
        || (&& row.value.status != Queued && row.value.status != Processing
            && row.value.contentHash != Some(c.contentHash))
  {
    VisitEffect(s, origin, c);
  }

  /** Python's `x or ""`. */
  predicate IsOrEmpty(cell: string, x: Option<string>) {
    if x.Some? then cell == x.value else cell == ""
  }

  /** The row and the message a visit that sends leaves behind, column by column. */
  lemma VisitedColumns(s: State, origin: Origin, c: Candidate)
    requires Identity(s) && s.walker.AtRest? && |Visit(s, origin, c).mail| > |s.mail|
    ensures var row, after := RowAt(s, origin, c.driveItemId), RowAt(Visit(s, origin, c), origin, c.driveItemId);
      && after.Some?
      && after.value.fileName == c.fileName && after.value.mimeType == c.mimeType
      && after.value.folderPath == c.folderPath && after.value.contentHash == Some(c.contentHash)
      && after.value.status == Queued
      && after.value.syncStateId == origin.syncStateId && after.value.driveItemId == c.driveItemId
    ensures var row, after := RowAt(s, origin, c.driveItemId), RowAt(Visit(s, origin, c), origin, c.driveItemId);
      row.Some? ==>
        && after.value.previousHash ==
             (if row.value.contentHash == Some(c.contentHash) then row.value.previousHash else row.value.contentHash)
        && after.value.category == row.value.category && after.value.confidence == row.value.confidence
        && after.value.classificationOverride == row.value.classificationOverride
        && after.value.classifiedBy == row.value.classifiedBy && after.value.rawResponse == row.value.rawResponse
        && after.value.errorMessage == row.value.errorMessage && after.value.retryCount == row.value.retryCount
    ensures var row, after := RowAt(s, origin, c.driveItemId), RowAt(Visit(s, origin, c), origin, c.driveItemId);
      row.None? ==>
        && after.value.previousHash == None && after.value.category == None && after.value.confidence == None
        && after.value.classificationOverride == None && after.value.classifiedBy == None
        && after.value.rawResponse == None && after.value.errorMessage == None && after.value.retryCount == 0
    ensures var msg := Visit(s, origin, c).mail[|s.mail|].message;
      && msg.source == origin.source && msg.syncStateId == origin.syncStateId && msg.driveId == origin.driveId
      && msg.driveItemId == c.driveItemId && msg.contentHash == c.contentHash
      && IsOrEmpty(msg.fileName, c.fileName) && IsOrEmpty(msg.mimeType, c.mimeType)
  {
    hide Visit, RowAt;
    VisitEffect(s, origin, c);
    var msg := Visit(s, origin, c).mail[|s.mail|].message;
    var m := Strip(msg);
    assert msg.source == m.source && msg.syncStateId == m.syncStateId && msg.driveId == m.driveId;
    assert msg.driveItemId == m.driveItemId && msg.contentHash == m.contentHash;
    assert msg.fileName == m.fileName && msg.mimeType == m.mimeType;
    KeyOfRow(s, origin, c.driveItemId);
  }

  lemma KeyOfRow(s: State, origin: Origin, item: string)
    ensures var row := RowAt(s, origin, item); row.Some? ==> HasKey(row.value, origin.syncStateId, item)
  {
  }

  lemma CommitEffect(s: State, origin: Origin, c: Candidate, item: string)
    requires Identity(s) && s.walker == Chosen(origin, c, Find(s.documents, origin.syncStateId, c.driveItemId))
    requires ShouldEnqueue(RowAt(s, origin, c.driveItemId), c.contentHash)
    ensures RowAt(CommitRow(s), origin, item) ==
              if item == c.driveItemId then Visited(RowAt(s, origin, item), origin, c) else RowAt(s, origin, item)
  {
    var t := CommitRow(s);
    CommitKeepsIdentity(s);
    FindIsUnique(t.documents, t.walker.message.documentId);
    var hit := Find(s.documents, origin.syncStateId, item);
    if item != c.driveItemId && hit.Some? {
      FindIsUnique(t.documents, hit.value);
    }
  }

  // ---- the fixpoint ----

  ghost predicate Declined(s: State, origin: Origin, c: Candidate) {
    !ShouldEnqueue(RowAt(s, origin, c.driveItemId), c.contentHash)
  }

  /** Messages sent since the queue had n entries: one per item at most, and their rows are in flight. */
  ghost predicate SentOnce(s: State, origin: Origin, n: nat) {
    && (forall m :: n <= m < |s.mail| ==>
          var row := RowAt(s, origin, s.mail[m].message.driveItemId);
          row.Some? && InFlight(row.value.status))
    && (forall i, j :: n <= i < j < |s.mail| ==> s.mail[i].message.driveItemId != s.mail[j].message.driveItemId)
  }

  lemma {:induction false} WalkSettles(s: State, origin: Origin, cs: seq<Candidate>)
    requires Identity(s) && s.walker.AtRest?
    ensures Identity(VisitAll(s, origin, cs)) && s.mail <= VisitAll(s, origin, cs).mail
    ensures forall c :: c in cs ==> Declined(VisitAll(s, origin, cs), origin, c)
    ensures SentOnce(VisitAll(s, origin, cs), origin, |s.mail|)
  {
    if cs != [] {
      var n := |cs| - 1;
      var t := VisitAll(s, origin, cs[..n]);
      WalkSettles(s, origin, cs[..n]);
      VisitEffect(t, origin, cs[n]);
      VisitKeepsSentOnce(t, origin, cs[n], |s.mail|);
      forall c | c in cs
        ensures Declined(VisitAll(s, origin, cs), origin, c)
      {
        assert c in cs[..n] || c == cs[n];
      }
    }
  }

  lemma VisitKeepsSentOnce(s: State, origin: Origin, c: Candidate, n: nat)
    requires Identity(s) && s.walker.AtRest? && n <= |s.mail| && SentOnce(s, origin, n)
    ensures SentOnce(Visit(s, origin, c), origin, n)
  {
    hide Visit, UniqueKeys, WalkerAgrees, Names, RowAt;
    VisitEffect(s, origin, c);
    var t := Visit(s, origin, c);
    if ShouldEnqueue(RowAt(s, origin, c.driveItemId), c.contentHash) {
      assert Strip(t.mail[|s.mail|].message).driveItemId == c.driveItemId;
      assert forall m :: 0 <= m < |s.mail| ==> t.mail[m] == t.mail[..|s.mail|][m] == s.mail[m];
      forall m | n <= m < |s.mail|
        ensures t.mail[m].message.driveItemId != c.driveItemId
      {
        assert RowAt(s, origin, s.mail[m].message.driveItemId).Some?;
      }
    }
  }

  lemma {:induction false} DeclinedWalk(s: State, origin: Origin, cs: seq<Candidate>)
    requires Identity(s) && s.walker.AtRest?
    requires forall c :: c in cs ==> Declined(s, origin, c)
    ensures VisitAll(s, origin, cs) == s
  {
    if cs != [] {
      var n := |cs| - 1;
      forall c | c in cs[..n]
        ensures Declined(s, origin, c)
      {
        assert c in cs;
      }
      DeclinedWalk(s, origin, cs[..n]);
      assert cs[n] in cs;
      VisitEffect(s, origin, cs[n]);
    }
  }

  /**
    For any table and any listing, repeats and contradictory repeats included: one walk sends at
    most one message per item, and walking the same listing again changes nothing at all.
  */
  lemma WalkFixpoint(s: State, origin: Origin, cs: seq<Candidate>)
    requires Identity(s) && s.walker.AtRest?
    ensures var t := VisitAll(s, origin, cs);
      && s.mail <= t.mail
      && (forall i, j :: |s.mail| <= i < j < |t.mail| ==>
            t.mail[i].message.driveItemId != t.mail[j].message.driveItemId)
      && VisitAll(t, origin, cs) == t
  {
    WalkSettles(s, origin, cs);
    DeclinedWalk(VisitAll(s, origin, cs), origin, cs);
  }

  // ---- independence of the listing order ----

  predicate DistinctItems(cs: seq<Candidate>) {
    forall i, j :: 0 <= i < j < |cs| ==> cs[i].driveItemId != cs[j].driveItemId
  }

  ghost function NewMessages(s: State, n: nat): set<Message> {
    set m | n <= m < |s.mail| :: Strip(s.mail[m].message)
  }

  ghost function Wanted(s: State, origin: Origin, cs: seq<Candidate>): set<Message> {
    set c | c in cs && ShouldEnqueue(RowAt(s, origin, c.driveItemId), c.contentHash) :: Expected(origin, c)
  }

  /** Each row depends only on its own candidate, and the messages are those of the accepted candidates. */
  lemma {:induction false} WalkByItem(s: State, origin: Origin, cs: seq<Candidate>)
    requires Identity(s) && s.walker.AtRest? && DistinctItems(cs)
    ensures var t := VisitAll(s, origin, cs);
      && Identity(t) && s.mail <= t.mail
      && (forall c :: c in cs ==>
            RowAt(t, origin, c.driveItemId) == Visited(RowAt(s, origin, c.driveItemId), origin, c))
      && (forall item :: (forall c :: c in cs ==> c.driveItemId != item) ==>
            RowAt(t, origin, item) == RowAt(s, origin, item))
      && NewMessages(t, |s.mail|) == Wanted(s, origin, cs)
  {
    hide Visit, UniqueKeys, WalkerAgrees, Names, RowAt, ShouldEnqueue, Visited, Expected, Strip;
    if cs != [] {
      var n := |cs| - 1;
      var front, last := cs[..n], cs[n];
      WalkByItem(s, origin, front);
      var mid := VisitAll(s, origin, front);
      assert forall c :: c in cs <==> c in front || c == last;
      assert forall c :: c in front ==> c.driveItemId != last.driveItemId;
      VisitEffect(mid, origin, last);
      VisitMessages(mid, origin, last, |s.mail|);
      assert Wanted(s, origin, cs) == Wanted(s, origin, front) + Wanted(s, origin, [last]);
      assert Wanted(s, origin, [last]) == Wanted(mid, origin, [last]);
    }
  }

  lemma VisitMessages(s: State, origin: Origin, c: Candidate, n: nat)
    requires Identity(s) && s.walker.AtRest? && n <= |s.mail|
    ensures NewMessages(Visit(s, origin, c), n) == NewMessages(s, n) + Wanted(s, origin, [c])
  {
    hide Visit, RowAt, UniqueKeys, WalkerAgrees, Names, Visited, ShouldEnqueue, Strip, Expected;
    VisitEffect(s, origin, c);
    var t := Visit(s, origin, c);
    if ShouldEnqueue(RowAt(s, origin, c.driveItemId), c.contentHash) {
      assert forall m :: 0 <= m < |s.mail| ==> t.mail[m] == t.mail[..|s.mail|][m] == s.mail[m];
      assert c in [c];
      assert Wanted(s, origin, [c]) == {Expected(origin, c)};
      assert NewMessages(t, n) == NewMessages(s, n) + {Strip(t.mail[|s.mail|].message)};
    } else {
      assert Wanted(s, origin, [c]) == {};
    }
  }

  /** Listings of the same distinct files leave the same rows and messages, up to row ids. */
  lemma OrderDoesNotMatter(s: State, origin: Origin, cs: seq<Candidate>, other: seq<Candidate>)
    requires Identity(s) && s.walker.AtRest? && DistinctItems(cs) && DistinctItems(other)
    requires forall c :: c in cs <==> c in other
    ensures var t, u := VisitAll(s, origin, cs), VisitAll(s, origin, other);
      && (forall item :: RowAt(t, origin, item) == RowAt(u, origin, item))
      && NewMessages(t, |s.mail|) == NewMessages(u, |s.mail|)
  {
    WalkByItem(s, origin, cs);
    WalkByItem(s, origin, other);
    var t, u := VisitAll(s, origin, cs), VisitAll(s, origin, other);
    forall item
      ensures RowAt(t, origin, item) == RowAt(u, origin, item)
    {
      if c :| c in cs && c.driveItemId == item {
        assert c in other;
      }
    }
    assert Wanted(s, origin, cs) == Wanted(s, origin, other);
  }
}
