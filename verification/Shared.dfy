/** The database, the queue and the processes that share them, as one object updated in place. */
module Shared {
  import opened Base
  import opened Protocol

  class World {
    var documents: seq<Document>  // the documents table, a row's id is its position
    var mail: seq<Mail>           // the queue with the program counters of the message holders
    var log: seq<Audit>           // the processing_log table
    var walker: WalkerPc          // the walker's position inside one item
    var books: seq<Book>          // per-row history

    function Now(): State
      reads this
    {
      State(documents, books, mail, log, walker)
    }

    constructor ()
      ensures Now() == INITIAL
    {
      documents, mail, log, walker, books := [], [], [], AtRest, [];
    }

    /** Other processes run before the next step of the caller. */
    method Interfere(es: seq<Event>)
      requires CanRun(Now(), es)
      modifies this
      ensures Now() == Exec(old(Now()), es)
    {
      var s := Exec(Now(), es);
      documents, mail, log, walker, books := s.documents, s.mail, s.log, s.walker, s.books;
    }

    /** Append one processing_log row for the delivery that holds m. */
    method AddLog(m: nat, status: LogStatus, c: Option<Classification>, error: Option<string>)
      requires m < |mail|
      modifies this`log
      ensures Now() == Protocol.AddLog(old(Now()), m, status, c, error)
    {
      var category: Option<string>, confidence: Option<real> := None, None;
      if c.Some? {
        category, confidence := Some(c.value.category), Some(c.value.confidence);
      }
      var row := LogRow(mail[m].message.documentId, mail[m].deliveries, status, category, confidence, error);
      log := log + [Audit(m, row)];
    }

    /** SELECT ... WHERE sync_state_id = ... AND drive_item_id = ...: a scan of the table. */
    method Select(syncStateId: nat, driveItemId: string) returns (hit: Option<nat>)
      ensures hit == Find(documents, syncStateId, driveItemId)
    {
      hit := None;
      var i := 0;
      while i < |documents| && hit.None?
        invariant i <= |documents|
        invariant hit == Find(documents[..i], syncStateId, driveItemId)
        invariant hit.Some? ==> Find(documents, syncStateId, driveItemId) == hit
      {
        assert documents[..i + 1][..i] == documents[..i];
        if HasKey(documents[i], syncStateId, driveItemId) {
          hit := Some(i);
          FindPrefix(documents, i + 1, syncStateId, driveItemId);
        }
        i := i + 1;
      }
      assert documents[..|documents|] == documents;
    }
  }

  lemma {:induction false} FindPrefix(documents: seq<Document>, n: nat, syncStateId: nat, driveItemId: string)
    requires n <= |documents| && Find(documents[..n], syncStateId, driveItemId).Some?
    ensures Find(documents, syncStateId, driveItemId) == Find(documents[..n], syncStateId, driveItemId)
    decreases |documents| - n
  {
    if n == |documents| {
      assert documents[..n] == documents;
    } else {
      assert documents[..n + 1][..n] == documents[..n];
      FindPrefix(documents, n + 1, syncStateId, driveItemId);
    }
  }
}
