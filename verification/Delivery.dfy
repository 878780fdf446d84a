/**
  What one delivery may do, said from the answers of the outside world alone: which outcomes these
  warrant, and which commits and deletes have to follow an outcome.
*/
module Delivery {
  import opened Base
  import opened Protocol
  import opened Interleaving
  import opened Pipeline

  /** The source still has the content the message was sent for. */
  predicate Unchanged(msg: Message, io: Io) {
    io.fetched == Ok(Some(msg.contentHash))
  }

  /** The answers of source, extractor and classifier warrant this outcome. */
  ghost predicate Warranted(msg: Message, io: Io, o: Outcome) {
    match o
    case Skip(reason) =>
      || (reason == HASH_MISMATCH && io.fetched.Ok? && io.fetched.value != Some(msg.contentHash))
      || (&& Unchanged(msg, io) && io.downloaded.Ok?
          && var e := io.extract(io.downloaded.value, msg.mimeType);
             e.NoExtractor? && reason == "unsupported mime type " + msg.mimeType + ": " + e.error)
    case Failure(error) =>
      || io.fetched == Err(error)
      || (Unchanged(msg, io) && io.downloaded == Err(error))
      || (&& Unchanged(msg, io) && io.downloaded.Ok?
          && var e := io.extract(io.downloaded.value, msg.mimeType);
             e == Unreadable(error) || (e.Text? && io.classify(e.text) == Err(error)))
    case Verdict(c) =>
      && Unchanged(msg, io) && io.downloaded.Ok?
      && var e := io.extract(io.downloaded.value, msg.mimeType);
         e.Text? && io.classify(e.text) == Ok(c)
  }

  /** The failure of the skip commit counts as the attempt's only after a hash mismatch. */
  ghost predicate SecondThought(happened: seq<Event>, m: nat, o: Outcome, fails: Event -> bool) {
    o == Failure(COMMIT_FAILED) && Decide(m, Skip(HASH_MISMATCH)) in happened && fails(RecordSkip(m))
  }

  /** Every outcome is warranted, and what is recorded is what was decided. */
  ghost predicate OnlyWarranted(happened: seq<Event>, m: nat, msg: Message, io: Io, fails: Event -> bool) {
    && (forall o :: Decide(m, o) in happened ==> Warranted(msg, io, o) || SecondThought(happened, m, o, fails))
    && (RecordSkip(m) in happened ==> exists reason :: Decide(m, Skip(reason)) in happened)
    && (RecordFailure(m) in happened ==> exists error :: Decide(m, Failure(error)) in happened)
    && (Upsert(m) in happened ==> exists c :: Decide(m, Verdict(c)) in happened)
    && (LogSuccess(m) in happened ==> Upsert(m) in happened)
    && (Delete(m) in happened ==> Acknowledged(happened, m))
  }

  /** An outcome other than a failure is on record. */
  predicate Acknowledged(happened: seq<Event>, m: nat) {
    RecordOverride(m) in happened || RecordSkip(m) in happened || LogSuccess(m) in happened
  }

  /** Nothing that has to follow is left out, unless the call for it raises. */
  ghost predicate NothingMissing(happened: seq<Event>, m: nat, fails: Event -> bool) {
    && (!fails(Receive(m)) ==> Receive(m) in happened)
    && (Receive(m) in happened && !fails(Load(m)) ==> Load(m) in happened)
    && (Load(m) in happened && !fails(Mark(m)) && !fails(RecordOverride(m)) ==>
          Mark(m) in happened || RecordOverride(m) in happened)
    && (Mark(m) in happened && (forall o :: !fails(Decide(m, o))) ==> exists o :: Decide(m, o) in happened)
    && (forall o :: Decide(m, o) in happened ==> Followed(happened, m, o, fails))
    && (Upsert(m) in happened && !fails(LogSuccess(m)) ==> LogSuccess(m) in happened)
    && (Acknowledged(happened, m) && !fails(Delete(m)) ==> Delete(m) in happened)
  }

  predicate Followed(happened: seq<Event>, m: nat, o: Outcome, fails: Event -> bool) {
    match o
    case Skip(_) => fails(RecordSkip(m)) || RecordSkip(m) in happened
    case Failure(_) => fails(RecordFailure(m)) || RecordFailure(m) in happened
    case Verdict(_) => fails(Upsert(m)) || Upsert(m) in happened
  }

  lemma JudgeIsWarranted(msg: Message, io: Io)
    ensures Warranted(msg, io, Judge(msg, io))
  {
  }

  lemma ReasonsDiffer(mime: string, error: string)
    ensures "unsupported mime type " + mime + ": " + error != HASH_MISMATCH
  {
    var reason, stale := "unsupported mime type " + mime + ": " + error, HASH_MISMATCH;
    assert reason[0] == "unsupported mime type "[0] == 'u';
    assert stale[0] == 'c' by {
      assert "content_hash mismatch"[0] == 'c' && stale == "content_hash mismatch" + "; walker will re-enqueue";
    }
  }

  /** The answers of the outside world warrant exactly one outcome. */
  lemma WarrantIsUnique(msg: Message, io: Io, o: Outcome, p: Outcome)
    requires Warranted(msg, io, o) && Warranted(msg, io, p)
    ensures o == p
  {
  }

  lemma ScriptSteps(happened: seq<Event>, m: nat, override: bool, o: Outcome, i: nat)
    requires happened <= Script(m, override, o) && i < |Script(m, override, o)|
    ensures Script(m, override, o)[i] in happened <==> i < |happened|
  {
    var script := Script(m, override, o);
    if i < |happened| {
      assert happened[i] == script[i];
    } else {
      forall j | 0 <= j < |happened|
        ensures happened[j] != script[i]
      {
        assert happened[j] == script[j];
      }
    }
  }

  lemma InScript(happened: seq<Event>, m: nat, override: bool, o: Outcome, e: Event)
    requires happened <= Script(m, override, o) && e in happened
    ensures e in Script(m, override, o)
  {
    var j :| 0 <= j < |happened| && happened[j] == e;
    assert Script(m, override, o)[j] == e;
  }

  /** Which steps of a script have happened. */
  lemma Steps(happened: seq<Event>, m: nat, override: bool, o: Outcome)
    requires happened <= Script(m, override, o)
    ensures var s, k := Script(m, override, o), |happened|;
      && |s| >= 4
      && (s[0] in happened <==> 0 < k) && (s[1] in happened <==> 1 < k)
      && (s[2] in happened <==> 2 < k) && (s[3] in happened <==> 3 < k)
      && (|s| > 4 ==> (s[4] in happened <==> 4 < k)) && (|s| > 5 ==> (s[5] in happened <==> 5 < k))
      && (|s| > 6 ==> (s[6] in happened <==> 6 < k))
    ensures forall e :: e in happened ==> e in Script(m, override, o)
  {
    hide Script;
    ScriptIsLong(m, override, o);
    var s := Script(m, override, o);
    forall i | 0 <= i < |s|
      ensures s[i] in happened <==> i < |happened|
    {
      ScriptSteps(happened, m, override, o, i);
    }
    forall e | e in happened
      ensures e in s
    {
      InScript(happened, m, override, o, e);
    }
  }

  lemma ScriptIsLong(m: nat, override: bool, o: Outcome)
    ensures |Script(m, override, o)| >= 4
  {
  }

  /** A script cut short does no more than it has to. */
  lemma ScriptIsWarranted(
    happened: seq<Event>, m: nat, override: bool, msg: Message, io: Io, o: Outcome, fails: Event -> bool)
    requires happened <= Script(m, override, o) && Warranted(msg, io, o)
    ensures OnlyWarranted(happened, m, msg, io, fails)
  {
    hide Warranted, SecondThought;
    Steps(happened, m, override, o);
  }

  /** A script cut short by its first failing call misses nothing. */
  lemma ScriptMissesNothing(happened: seq<Event>, m: nat, override: bool, o: Outcome, fails: Event -> bool)
    requires RanUntilFailure(happened, Script(m, override, o), fails)
    ensures NothingMissing(happened, m, fails)
  {
    Steps(happened, m, override, o);
  }

  /** The same with the recorded failure of a mismatch skip that could not be committed. */
  lemma RescueIsSound(happened: seq<Event>, m: nat, msg: Message, io: Io, fails: Event -> bool)
    requires MismatchSkipRaised(m, false, Skip(HASH_MISMATCH), fails) && Warranted(msg, io, Skip(HASH_MISMATCH))
    requires RanDelivery(happened, m, false, Skip(HASH_MISMATCH), fails)
    ensures OnlyWarranted(happened, m, msg, io, fails) && NothingMissing(happened, m, fails)
  {
    hide Warranted;
    var script := Script(m, false, Skip(HASH_MISMATCH));
    assert fails(script[4]);
    assert happened[0] == Receive(m) && happened[1] == Load(m) && happened[2] == Mark(m);
    assert happened[3] == Decide(m, Skip(HASH_MISMATCH)) && happened[4] == Decide(m, Failure(COMMIT_FAILED));
    assert !fails(RecordFailure(m)) ==> happened[5] == RecordFailure(m);
  }

  /**
    Whatever raises and whatever the outside world answers: a delivery that ran as `RanDelivery` says
    with the outcome of `Judge` does what its answers warrant, and misses nothing.
  */
  lemma DeliveryIsSound(
    happened: seq<Event>, m: nat, override: bool, msg: Message, io: Io, fails: Event -> bool)
    requires RanDelivery(happened, m, override, Judge(msg, io), fails)
    ensures OnlyWarranted(happened, m, msg, io, fails) && NothingMissing(happened, m, fails)
  {
    hide OnlyWarranted, NothingMissing, Warranted, Judge, RanUntilFailure, Script;
    var o := Judge(msg, io);
    JudgeIsWarranted(msg, io);
    if MismatchSkipRaised(m, override, o, fails) {
      RescueIsSound(happened, m, msg, io, fails);
    } else {
      UntilFailureIsPrefix(happened, Script(m, override, o), fails);
      ScriptIsWarranted(happened, m, override, msg, io, o, fails);
      ScriptMissesNothing(happened, m, override, o, fails);
    }
  }

  lemma UntilFailureIsPrefix(happened: seq<Event>, script: seq<Event>, fails: Event -> bool)
    requires RanUntilFailure(happened, script, fails)
    ensures happened <= script
  {
  }

  // ---- what follows from it ----

  /** A failed hash re-check never acknowledges the message: it stays on the queue. */
  lemma FailedRecheckKeepsMessage(happened: seq<Event>, m: nat, msg: Message, io: Io, fails: Event -> bool)
    requires OnlyWarranted(happened, m, msg, io, fails) && io.fetched.Err?
    ensures RecordSkip(m) !in happened && Upsert(m) !in happened && LogSuccess(m) !in happened
    ensures Delete(m) in happened ==> RecordOverride(m) in happened
    ensures forall o :: Decide(m, o) in happened ==> o == Failure(io.fetched.error)
  {
  }

  /** A message is decided to be stale exactly when the source has another hash. */
  lemma StaleExactly(happened: seq<Event>, m: nat, msg: Message, io: Io, o: Outcome, fails: Event -> bool)
    requires OnlyWarranted(happened, m, msg, io, fails) && Decide(m, o) in happened
    ensures Decide(m, Skip(HASH_MISMATCH)) in happened <==>
              io.fetched.Ok? && io.fetched.value != Some(msg.contentHash)
    ensures io.fetched.Ok? && io.fetched.value != Some(msg.contentHash) ==> Upsert(m) !in happened
  {
    forall c | Decide(m, Verdict(c)) in happened
      ensures Unchanged(msg, io)
    {
      assert Warranted(msg, io, Verdict(c));
    }
    if Decide(m, Skip(HASH_MISMATCH)) in happened && Unchanged(msg, io) && io.downloaded.Ok? {
      var e := io.extract(io.downloaded.value, msg.mimeType);
      if e.NoExtractor? {
        ReasonsDiffer(msg.mimeType, e.error);
      }
    }
  }

  /** What is upserted is the classification of the text of the downloaded bytes of the unchanged content. */
  lemma UpsertIsOfTheBytes(happened: seq<Event>, m: nat, msg: Message, io: Io, fails: Event -> bool)
    requires OnlyWarranted(happened, m, msg, io, fails) && Upsert(m) in happened
    ensures io.fetched == Ok(Some(msg.contentHash)) && io.downloaded.Ok?
    ensures var e := io.extract(io.downloaded.value, msg.mimeType);
      e.Text? && io.classify(e.text).Ok? && Decide(m, Verdict(io.classify(e.text).value)) in happened
  {
    var c :| Decide(m, Verdict(c)) in happened;
    assert Warranted(msg, io, Verdict(c));
  }

  /** An error after an unchanged hash is decided, and recorded unless that raises, as that error. */
  lemma ErrorIsRecorded(
    happened: seq<Event>, m: nat, msg: Message, io: Io, o: Outcome, error: string, fails: Event -> bool)
    requires OnlyWarranted(happened, m, msg, io, fails) && NothingMissing(happened, m, fails)
    requires Decide(m, o) in happened && Warranted(msg, io, Failure(error))
    ensures o == Failure(error) && (fails(RecordFailure(m)) || RecordFailure(m) in happened)
    ensures Upsert(m) !in happened && RecordSkip(m) !in happened
  {
    hide Warranted;
    NoMismatchWithError(msg, io, error);
    assert Decide(m, Skip(HASH_MISMATCH)) !in happened;
    forall p | Decide(m, p) in happened
      ensures p == Failure(error)
    {
      WarrantIsUnique(msg, io, p, Failure(error));
    }
    assert Followed(happened, m, o, fails);
  }

  lemma NoMismatchWithError(msg: Message, io: Io, error: string)
    requires Warranted(msg, io, Failure(error))
    ensures !Warranted(msg, io, Skip(HASH_MISMATCH))
  {
    if io.downloaded.Ok? {
      var e := io.extract(io.downloaded.value, msg.mimeType);
      if e.NoExtractor? {
        ReasonsDiffer(msg.mimeType, e.error);
      }
    }
  }
}
