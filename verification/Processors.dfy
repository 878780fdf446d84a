/** The processor: one invocation handles one message, while every other process keeps running. */
module Processors {
  import opened Base
  import opened Protocol
  import opened Safety
  import opened Interleaving
  import opened Pipeline
  import opened Delivery
  import opened Shared

  class Processor {
    const world: World
    const env: Environment          // what the others do between two steps of this process
    const fails: Event -> bool      // which of this process's driver calls raise
    var tick: nat
    ghost const start: State
    ghost var trace: seq<Event>     // everything that happened since `start`

    /** The world is exactly what the trace leads to, and m is nobody else's. */
    ghost predicate Valid(m: nat)
      reads this, world
    {
      && Foreign(env, HolderOf(m))
      && CanRun(start, trace) && Exec(start, trace) == world.Now()
      && Safe(world.Now())
      && m < |world.mail|
    }

    ghost function Mine(m: nat): seq<Event>
      reads this`trace
    {
      Own(trace, HolderOf(m))
    }

    constructor (world: World, env: Environment, fails: Event -> bool)
      ensures this.world == world && this.env == env && this.fails == fails
      ensures trace == [] && start == world.Now()
    {
      this.world, this.env, this.fails, tick := world, env, fails, 0;
      start, trace := world.Now(), [];
    }

    /** The other processes run for a while. */
    method Others(m: nat)
      requires Valid(m)
      modifies `tick, `trace, world
      ensures Valid(m) && Mine(m) == old(Mine(m)) && world.mail[m] == old(world.mail[m])
    {
      var es := env(tick, world.Now());
      assert Admissible(world.Now(), es, HolderOf(m));
      ForeignKeepsPc(world.Now(), es, HolderOf(m));
      RunConcat(start, trace, es);
      OwnConcat(trace, es, HolderOf(m));
      world.Interfere(es);
      tick := tick + 1;
      trace := trace + es;
    }

    /** Bookkeeping after one step of this process has been carried out on the world. */
    ghost method Note(e: Event, m: nat, before: State)
      requires MailOf(e) == Some(m) && Foreign(env, HolderOf(m)) && Safe(before)
      requires CanRun(start, trace) && Exec(start, trace) == before
      requires Enabled(before, e) && world.Now() == Apply(before, e)
      modifies `trace
      ensures Valid(m) && trace == old(trace) + [e] && Mine(m) == old(Mine(m)) + [e]
    {
      RunSnoc(start, trace, e);
      OwnSnoc(trace, e, HolderOf(m));
      IdentityKept(before, e);
      CoveredKept(before, e);
      MailStepFrame(before, e, m);
      trace := trace + [e];
    }

    /** One step of this process: the trace grows by e and the world changes exactly as e says. */
    twostate predicate Took(e: Event, m: nat)
      reads this, world
    {
      && Valid(m)
      && Mine(m) == old(Mine(m)) + [e]
      && Enabled(old(world.Now()), e)
      && world.Now() == Apply(old(world.Now()), e)
      && m < |old(world.mail)| && world.mail[m].message == old(world.mail[m].message)
    }

    method SetPhase(m: nat, phase: Phase)
      requires m < |world.mail|
      modifies world`mail
      ensures world.Now() == Protocol.SetPhase(old(world.Now()), m, phase)
    {
      world.mail := world.mail[m := world.mail[m].(phase := phase)];
    }

    /** The queue hands out m and counts the delivery. */
    method Receive(m: nat)
      requires Valid(m) && world.mail[m].phase.Ready?
      modifies `trace, world
      ensures Took(Event.Receive(m), m) && world.mail[m].phase.Received?
    {
      ghost var before := world.Now();
      world.mail := world.mail[m := world.mail[m].(deliveries := world.mail[m].deliveries + 1, phase := Received)];
      Note(Event.Receive(m), m, before);
    }

    method Delete(m: nat)
      requires Valid(m) && world.mail[m].phase.Recorded?
      modifies `trace, world
      ensures Took(Event.Delete(m), m) && world.mail[m].phase.Gone?
    {
      ghost var before := world.Now();
      SetPhase(m, Gone);
      Note(Event.Delete(m), m, before);
    }

    /** `session.get`, and the override check on the loaded row. */
    method LoadDocument(m: nat) returns (override: bool)
      requires Valid(m) && world.mail[m].phase.Received?
      modifies `trace, world
      ensures Took(Load(m), m)
      ensures world.mail[m].phase == if override then SawOverride else Loaded
    {
      ghost var before := world.Now();
      var r := world.mail[m].message.documentId;
      override := world.documents[r].classificationOverride.Some?;
      SetPhase(m, if override then SawOverride else Loaded);
      Note(Load(m), m, before);
    }

    method CommitStatus(m: nat, status: Status)
      requires m < |world.mail| && RowOf(world.Now(), m) < |world.documents|
      modifies world`documents
      ensures world.Now() == Protocol.SetDocument(old(world.Now()), RowOf(old(world.Now()), m),
                               old(world.documents[world.mail[m].message.documentId]).(status := status))
    {
      var r := world.mail[m].message.documentId;
      world.documents := world.documents[r := world.documents[r].(status := status)];
    }

    method CountOutcome(m: nat)
      requires m < |world.mail| && RowOf(world.Now(), m) < |world.books|
      modifies world`books
      ensures world.Now() == Protocol.CountOutcome(old(world.Now()), RowOf(old(world.Now()), m))
    {
      var r := world.mail[m].message.documentId;
      world.books := world.books[r := world.books[r].(outcomes := world.books[r].outcomes + 1)];
    }

    method MarkProcessing(m: nat)
      requires Valid(m) && world.mail[m].phase.Loaded?
      modifies `trace, world
      ensures Took(Mark(m), m) && world.mail[m].phase.Marked?
    {
      ghost var before := world.Now();
      CommitStatus(m, Processing);
      SetPhase(m, Marked);
      Note(Mark(m), m, before);
    }

    method RecordOverride(m: nat)
      requires Valid(m) && world.mail[m].phase.SawOverride?
      modifies `trace, world
      ensures Took(Event.RecordOverride(m), m) && world.mail[m].phase.Recorded?
    {
      ghost var before := world.Now();
      CommitStatus(m, Completed);
      CountOutcome(m);
      world.AddLog(m, LogSkipped, None, Some(OVERRIDE_PRESENT));
      SetPhase(m, Recorded);
      Note(Event.RecordOverride(m), m, before);
    }

    method RecordSkipped(m: nat, reason: string)
      requires Valid(m) && world.mail[m].phase == Decided(Skip(reason))
      modifies `trace, world
      ensures Took(RecordSkip(m), m) && world.mail[m].phase.Recorded?
    {
      ghost var before := world.Now();
      CommitStatus(m, Skipped);
      CountOutcome(m);
      world.AddLog(m, LogSkipped, None, Some(reason));
      SetPhase(m, Recorded);
      Note(RecordSkip(m), m, before);
    }

    method RecordFailure(m: nat, error: string)
      requires Valid(m) && world.mail[m].phase == Decided(Failure(error))
      modifies `trace, world
      ensures Took(Event.RecordFailure(m), m) && world.mail[m].phase.Raised?
    {
      ghost var before := world.Now();
      var r := world.mail[m].message.documentId;
      world.documents := world.documents[r := world.documents[r].(
        status := Failed, errorMessage := Some(error), retryCount := world.documents[r].retryCount + 1)];
      CountOutcome(m);
      world.AddLog(m, LogFailed, None, Some(error));
      SetPhase(m, Raised);
      Note(Event.RecordFailure(m), m, before);
    }

    /** `DatabaseWriter.write`: the guarded UPSERT and its own commit. */
    method Write(m: nat, c: Classification)
      requires Valid(m) && world.mail[m].phase == Decided(Verdict(c))
      modifies `trace, world
      ensures Took(Upsert(m), m) && world.mail[m].phase.Written? && world.mail[m].phase.classification == c
    {
      ghost var before := world.Now();
      var key := world.mail[m].message;
      UpsertHits(before, m);
      var hit := world.Select(key.syncStateId, key.driveItemId);
      var r := hit.value;
      if world.documents[r].classificationOverride.None? {
        world.documents := world.documents[r := WithResult(world.documents[r], c)];
        CountOutcome(m);
        SetPhase(m, Written(c, true));
      } else {
        SetPhase(m, Written(c, false));
      }
      Note(Upsert(m), m, before);
    }

    method AppendSuccess(m: nat, c: Classification)
      requires Valid(m) && world.mail[m].phase.Written? && world.mail[m].phase.classification == c
      modifies `trace, world
      ensures Took(LogSuccess(m), m) && world.mail[m].phase.Recorded?
    {
      ghost var before := world.Now();
      var r := world.mail[m].message.documentId;
      var b := world.books[r];
      world.books := world.books[r := b.(gap := b.gap || !world.mail[m].phase.applied)];
      world.AddLog(m, LogCompleted, Some(c), None);
      SetPhase(m, Recorded);
      Note(LogSuccess(m), m, before);
    }

    method Conclude(m: nat, o: Outcome)
      requires Valid(m) && MayDecide(world.mail[m].phase, o)
      modifies `trace, world
      ensures Took(Decide(m, o), m) && world.mail[m].phase == Decided(o)
    {
      ghost var before := world.Now();
      SetPhase(m, Decided(o));
      Note(Decide(m, o), m, before);
    }

    /** One invocation so far: a complete script but for the delete, or one cut short by a failing call. */
    ghost predicate Progress(m: nat, override: bool, o: Outcome, ok: bool)
      reads this, world
    {
      && Valid(m)
      && (ok ==> && Mine(m) + [Event.Delete(m)] == Script(m, override, o)
                 && world.mail[m].phase.Recorded?
                 && forall i :: 0 <= i < |Mine(m)| ==> !fails(Mine(m)[i]))
      && Event.Delete(m) !in Mine(m)
      && (!ok ==> RanDelivery(Mine(m), m, override, o, fails) && !world.mail[m].phase.Gone?)
    }

    lemma Stops(m: nat, override: bool, o: Outcome)
      requires Valid(m) && !world.mail[m].phase.Gone?
      requires RanUntilFailure(Mine(m), Script(m, override, o), fails)
      requires |Mine(m)| != 4 || override || o != Skip(HASH_MISMATCH)
      requires Event.Delete(m) !in Mine(m)
      ensures Progress(m, override, o, false)
    {
      StoppedThere(Mine(m), m, override, o, fails);
    }

    lemma StopsEarly(m: nat, o: Outcome)
      requires Valid(m) && !world.mail[m].phase.Gone?
      requires (Mine(m) == [Event.Receive(m)] && fails(Load(m)))
            || (Mine(m) == [Event.Receive(m), Load(m)] && !fails(Load(m)) && fails(Mark(m)))
      requires !fails(Event.Receive(m))
      ensures Progress(m, false, o, false)
    {
      Stops(m, false, o);
    }

    method RecordSuccess(m: nat, c: Classification) returns (ok: bool)
      requires Valid(m) && world.mail[m].phase == Decided(Verdict(c))
      requires Mine(m) == [Event.Receive(m), Load(m), Mark(m), Decide(m, Verdict(c))]
      requires forall i :: 0 <= i < |Mine(m)| ==> !fails(Mine(m)[i])
      modifies `tick, `trace, world
      ensures Progress(m, false, Verdict(c), ok)
    {
      hide Foreign, CanRun, Exec, Safe, Apply, Enabled;
      Others(m);
      if fails(Upsert(m)) { return false; }
      Write(m, c);
      Others(m);
      if fails(LogSuccess(m)) { return false; }
      AppendSuccess(m, c);
      return true;
    }

    /** The handler of attempt failures: record the failure, unless this commit raises too. */
    method AttemptFailed(m: nat, error: string)
      requires Valid(m) && world.mail[m].phase == Decided(Failure(error))
      modifies `tick, `trace, world
      ensures Valid(m) && !world.mail[m].phase.Gone?
      ensures Mine(m) == old(Mine(m)) + if fails(Event.RecordFailure(m)) then [] else [Event.RecordFailure(m)]
    {
      hide Foreign, CanRun, Exec, Safe, Apply, Enabled, Judge;
      Others(m);
      if !fails(Event.RecordFailure(m)) {
        RecordFailure(m, error);
      }
    }

    /** Record a skip; only the hash-mismatch one is committed where its failure counts as the attempt's. */
    method SkipAttempt(m: nat, reason: string) returns (ok: bool)
      requires Valid(m) && world.mail[m].phase == Decided(Skip(reason))
      requires Mine(m) == [Event.Receive(m), Load(m), Mark(m), Decide(m, Skip(reason))]
      requires forall i :: 0 <= i < |Mine(m)| ==> !fails(Mine(m)[i])
      modifies `tick, `trace, world
      ensures Progress(m, false, Skip(reason), ok)
    {
      hide Foreign, CanRun, Exec, Safe, Apply, Enabled;
      Others(m);
      if fails(RecordSkip(m)) {
        if reason == HASH_MISMATCH {
          Conclude(m, Failure(COMMIT_FAILED));
          AttemptFailed(m, COMMIT_FAILED);
        }
        return false;
      }
      RecordSkipped(m, reason);
      return true;
    }

    /** Re-check the hash, download, extract, classify; then record whatever came out. */
    method RunPipeline(m: nat, io: Io) returns (ok: bool)
      requires Valid(m) && world.mail[m].phase.Marked?
      requires Mine(m) == [Event.Receive(m), Load(m), Mark(m)]
      requires forall i :: 0 <= i < |Mine(m)| ==> !fails(Mine(m)[i])
      modifies `tick, `trace, world
      ensures Progress(m, false, Judge(old(world.mail[m].message), io), ok)
    {
      hide Foreign, CanRun, Exec, Safe, Apply, Enabled, Judge;
      var o := Judge(world.mail[m].message, io);
      Others(m);
      if fails(Decide(m, o)) {
        StoppedThere(Mine(m), m, false, o, fails);
        return false;
      }
      Conclude(m, o);
      match o {
        case Skip(reason) =>
          ok := SkipAttempt(m, reason);
        case Failure(error) =>
          AttemptFailed(m, error);
          return false;
        case Verdict(c) =>
          ok := RecordSuccess(m, c);
      }
    }

    method Process(m: nat, io: Io) returns (ok: bool, ghost override: bool)
      requires Valid(m) && world.mail[m].phase.Received?
      requires Mine(m) == [Event.Receive(m)] && !fails(Event.Receive(m))
      modifies `tick, `trace, world
      ensures Progress(m, override, Judge(old(world.mail[m].message), io), ok)
    {
      hide Foreign, CanRun, Exec, Safe, Apply, Enabled, Judge, RanDelivery, RanUntilFailure, Script, Processor.Progress;
      ghost var o := Judge(world.mail[m].message, io);
      override := false;
      Others(m);
      if fails(Load(m)) {
        StopsEarly(m, o);
        return false, override;
      }
      var sawOverride := LoadDocument(m);
      override := sawOverride;
      if sawOverride {
        ok := LeaveOverridden(m, o);
        return ok, override;
      }
      Others(m);
      if fails(Mark(m)) {
        StopsEarly(m, o);
        return false, override;
      }
      MarkProcessing(m);
      ok := RunPipeline(m, io);
    }

    /** The human label stands: record that and nothing else. */
    method LeaveOverridden(m: nat, ghost o: Outcome) returns (ok: bool)
      requires Valid(m) && world.mail[m].phase.SawOverride?
      requires Mine(m) == [Event.Receive(m), Load(m)] && !fails(Event.Receive(m)) && !fails(Load(m))
      modifies `tick, `trace, world
      ensures Progress(m, true, o, ok)
    {
      hide Foreign, CanRun, Exec, Safe, Apply, Enabled, RanDelivery;
      Others(m);
      if fails(Event.RecordOverride(m)) {
        Stops(m, true, o);
        return false;
      }
      RecordOverride(m);
      return true;
    }

    /** Receive m, process it, and delete it on a terminal outcome. */
    method RunDelivery(m: nat, io: Io) returns (ok: bool, ghost override: bool)
      requires Valid(m) && trace == [] && world.mail[m].phase.Ready?
      modifies `tick, `trace, world
      ensures Valid(m) && (ok <==> world.mail[m].phase.Gone?) && (ok <==> Event.Delete(m) in Mine(m))
      ensures RanDelivery(Mine(m), m, override, Judge(old(world.mail[m].message), io), fails)
    {
      hide Foreign, CanRun, Exec, Safe, Apply, Enabled, Judge, RanDelivery, MismatchSkipRaised;
      override := false;
      ghost var o := Judge(world.mail[m].message, io);
      if fails(Event.Receive(m)) {
        StoppedThere([], m, false, o, fails);
        return false, override;
      }
      Receive(m);
      ok, override := Process(m, io);
      if ok {
        Others(m);
        if fails(Event.Delete(m)) {
          ok := false;
        } else {
          Delete(m);
        }
        StoppedThere(Mine(m), m, override, o, fails);
      }
    }

    /**
      One invocation of the job on the message the queue hands out (`None`: the queue is empty).
      However the others interleave, this process contributes the events `RanDelivery` names, in
      order: one delivery script up to its first failing call, or the recorded failure of a skip that
      could not be committed.  It deletes the message exactly when it is done.  What is decided is what
      the answers warrant, what is recorded is what was decided, and nothing due is left out.
    */
    method RunOnce(pick: Option<nat>, io: Io) returns (ok: bool, ghost override: bool)
      requires pick.Some? ==>
        Valid(pick.value) && trace == [] && world.mail[pick.value].phase.Ready?
      modifies `tick, `trace, world
      ensures pick.None? ==> ok && world.Now() == old(world.Now())
      ensures pick.Some? ==>
        var m := pick.value;
        && Valid(m)
        && RanDelivery(Mine(m), m, override, Judge(old(world.mail[m].message), io), fails)
        && (ok <==> world.mail[m].phase.Gone?) && (ok <==> Event.Delete(m) in Mine(m))
      ensures pick.Some? ==>
        var m, msg := pick.value, old(world.mail[pick.value].message);
        && OnlyWarranted(Mine(m), m, msg, io, fails) && NothingMissing(Mine(m), m, fails)
        && (io.fetched.Err? && Event.RecordOverride(m) !in Mine(m) ==>
              !ok && RecordSkip(m) !in Mine(m) && Upsert(m) !in Mine(m))
    {
      hide Foreign, CanRun, Exec, Safe, Apply, Enabled, Judge, RanDelivery, OnlyWarranted, NothingMissing;
      override := false;
      if pick.None? { return true, override; }
      var m := pick.value;
      ghost var msg := world.mail[m].message;
      ok, override := RunDelivery(m, io);
      DeliveryIsSound(Mine(m), m, override, msg, io, fails);
      if io.fetched.Err? {
        FailedRecheckKeepsMessage(Mine(m), m, msg, io, fails);
      }
    }
  }
}
