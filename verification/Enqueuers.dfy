/** The producers' shared enqueue core: decide, commit the row as queued, then send. */
module Enqueuers {
  import opened Base
  import opened Protocol
  import opened Safety
  import opened Interleaving
  import opened Shared

  class Enqueuer {
    const world: World
    const env: Environment
    const fails: (nat, Event) -> bool  // at which ticks which of the walker's driver calls raise
    var tick: nat
    ghost const start: State
    ghost var trace: seq<Event>

    ghost predicate Valid()
      reads this, world
    {
      && Foreign(env, TheWalker)
      && CanRun(start, trace) && Exec(start, trace) == world.Now()
      && Safe(world.Now())
    }

    ghost function Mine(): seq<Event>
      reads this`trace
    {
      Own(trace, TheWalker)
    }

    constructor (world: World, env: Environment, fails: (nat, Event) -> bool)
      ensures this.world == world && this.env == env && this.fails == fails
      ensures trace == [] && start == world.Now()
    {
      this.world, this.env, this.fails, tick := world, env, fails, 0;
      start, trace := world.Now(), [];
    }

    /** Nobody else runs. */
    ghost predicate Alone() {
      forall k: nat, s: State :: env(k, s) == []
    }

    /** No driver call ever raises. */
    ghost predicate Reliable() {
      forall k: nat :: !fails(k, Commit) && !fails(k, Send)
    }

    method Others()
      requires Valid()
      modifies `tick, `trace, world
      ensures Valid() && Mine() == old(Mine()) && world.walker == old(world.walker)
      ensures tick == old(tick) + 1 && old(trace) <= trace
      ensures Alone() ==> world.Now() == old(world.Now())
    {
      var es := env(tick, world.Now());
      assert Admissible(world.Now(), es, TheWalker);
      ForeignKeepsPc(world.Now(), es, TheWalker);
      RunConcat(start, trace, es);
      OwnConcat(trace, es, TheWalker);
      world.Interfere(es);
      tick := tick + 1;
      trace := trace + es;
    }

    ghost method Note(e: Event, before: State)
      requires IsWalkerEvent(e) && Foreign(env, TheWalker) && Safe(before)
      requires CanRun(start, trace) && Exec(start, trace) == before
      requires Enabled(before, e) && world.Now() == Apply(before, e)
      modifies `trace
      ensures Valid() && Mine() == old(Mine()) + [e] && old(trace) <= trace
    {
      RunSnoc(start, trace, e);
      OwnSnoc(trace, e, TheWalker);
      IdentityKept(before, e);
      CoveredKept(before, e);
      trace := trace + [e];
    }

    twostate predicate Took(e: Event)
      reads this, world
    {
      && Valid()
      && Mine() == old(Mine()) + [e] && old(trace) <= trace
      && Enabled(old(world.Now()), e)
      && world.Now() == Apply(old(world.Now()), e)
    }

    /** `_existing_document` and `_should_enqueue` on the row as it stands now. */
    method Decide(origin: Origin, c: Candidate)
      requires Valid() && world.walker.AtRest?
      modifies `trace, world
      ensures Took(Look(origin, c)) && world.Now() == LookUp(old(world.Now()), origin, c)
    {
      ghost var before := world.Now();
      var hit := world.Select(origin.syncStateId, c.driveItemId);
      var document := None;
      if hit.Some? {
        document := Some(world.documents[hit.value]);
      }
      if ShouldEnqueue(document, c.contentHash) {
        world.walker := Chosen(origin, c, hit);
      } else {
        world.walker := AtRest;
      }
      Note(Look(origin, c), before);
    }

    /** `_upsert_queued_row`, `_build_message` and the commit, in one transaction. */
    method CommitQueued(origin: Origin, c: Candidate, target: Option<nat>)
      requires Valid() && world.walker == Chosen(origin, c, target)
      modifies `trace, world
      ensures Took(Commit) && world.Now() == CommitRow(old(world.Now())) && world.walker.Sending?
    {
      ghost var before := world.Now();
      var r: nat := |world.documents|;
      if target.None? {
        world.documents := world.documents + [NewDocument(origin.syncStateId, c.driveItemId)];
        world.books := world.books + [Book(0, 0, [c.contentHash], false)];
      } else {
        r := target.value;
        if world.documents[r].contentHash != Some(c.contentHash) {
          world.documents := world.documents[r := world.documents[r].(previousHash := world.documents[r].contentHash)];
        }
        world.books := world.books[r := Accept(world.books[r], c.contentHash)];
      }
      world.documents := world.documents[r := world.documents[r].(
        fileName := c.fileName, mimeType := c.mimeType, folderPath := c.folderPath,
        contentHash := Some(c.contentHash), status := Queued)];
      world.walker := Sending(BuildMessage(r, world.documents[r], origin));
      Note(Commit, before);
    }

    method SendQueued()
      requires Valid() && world.walker.Sending?
      modifies `trace, world
      ensures Took(Send) && world.Now() == SendMessage(old(world.Now())) && world.walker.AtRest?
    {
      ghost var before := world.Now();
      var msg := world.walker.message;
      world.mail := world.mail + [Mail(msg, 0, Ready)];
      world.books := world.books[msg.documentId := world.books[msg.documentId].(gap := false)];
      world.walker := AtRest;
      Note(Send, before);
    }

    /** The send raised: the committed row stays queued without a message. */
    method SendFailed()
      requires Valid() && world.walker.Sending?
      modifies `trace, world
      ensures Took(LoseSend) && world.walker.AtRest?
    {
      ghost var before := world.Now();
      var r := world.walker.message.documentId;
      world.books := world.books[r := world.books[r].(gap := true)];
      world.walker := AtRest;
      Note(LoseSend, before);
    }

    /** The commit raised: nothing was written and the walk ends here. */
    method CommitFailed()
      requires Valid() && world.walker.Chosen?
      modifies `trace, world
      ensures Took(Abandon) && world.walker.AtRest?
    {
      ghost var before := world.Now();
      world.walker := AtRest;
      Note(Abandon, before);
    }

    /** `_queue_document`: commit, then send. */
    method QueueDocument(origin: Origin, c: Candidate) returns (ok: bool, ghost tail: seq<Event>)
      requires Valid() && world.walker.Chosen? && world.walker.origin == origin && world.walker.candidate == c
      modifies `tick, `trace, world
      ensures Valid() && world.walker.AtRest? && old(trace) <= trace
      ensures Mine() == old(Mine()) + tail && QueueScript(tail, ok, fails, old(tick))
      ensures !ok ==> !Reliable()
      ensures forall i :: 0 <= i < |tail| ==> !tail[i].Look?
      ensures Alone() && Reliable() ==>
        && ok
        && Enabled(old(world.Now()), Commit)
        && Enabled(CommitRow(old(world.Now())), Send)
        && world.Now() == SendMessage(CommitRow(old(world.Now())))
    {
      hide Foreign, CanRun, Exec, Safe, Apply, CommitRow, SendMessage;
      var target := world.walker.target;
      Others();
      if fails(tick, Commit) {
        CommitFailed();
        return false, [Abandon];
      }
      CommitQueued(origin, c, target);
      Others();
      if fails(tick, Send) {
        SendFailed();
        return false, [Commit, LoseSend];
      }
      SendQueued();
      return true, [Commit, Send];
    }

    /**
      One candidate.  Under any interleaving this process looks once, and on a positive decision
      commits before it sends; a failing commit sends nothing and a failing send is never retried.
      With nobody else running the effect is that of `Visit`.
    */
    method EnqueueIfNeeded(origin: Origin, c: Candidate) returns (ok: bool, ghost tail: seq<Event>)
      requires Valid() && world.walker.AtRest?
      modifies `tick, `trace, world
      ensures Valid() && world.walker.AtRest? && old(trace) <= trace
      ensures Mine() == old(Mine()) + ([Look(origin, c)] + tail)
      ensures (ok && tail == []) || QueueScript(tail, ok, fails, old(tick) + 1)
      ensures !ok ==> !Reliable()
      ensures forall i :: 0 <= i < |tail| ==> !tail[i].Look?
      ensures Alone() && Reliable() ==>
        ok && |old(world.documents)| == |old(world.books)| && world.Now() == Visit(old(world.Now()), origin, c)
    {
      hide Foreign, CanRun, Exec, Covered, Apply, CommitRow, SendMessage, QueueScript;
      Others();
      Decide(origin, c);
      tail := [];
      if world.walker.AtRest? {
        return true, [];
      }
      ghost var mine := Mine();
      ok, tail := QueueDocument(origin, c);
      assert mine + tail == old(Mine()) + ([Look(origin, c)] + tail);
    }
  }

  /** Commit before send; nothing after the first failing call, whose tick is counted from t. */
  ghost predicate QueueScript(tail: seq<Event>, ok: bool, fails: (nat, Event) -> bool, t: nat) {
    || (ok && tail == [Commit, Send] && !fails(t + 1, Commit) && !fails(t + 2, Send))
    || (!ok && tail == [Abandon] && fails(t + 1, Commit))
    || (!ok && tail == [Commit, LoseSend] && !fails(t + 1, Commit) && fails(t + 2, Send))
  }

  /** Looking at one candidate with nobody else running and no driver failure. */
  function Visit(s: State, origin: Origin, c: Candidate): State
    requires s.walker.AtRest? && |s.documents| == |s.books|
  {
    var looked := LookUp(s, origin, c);
    if looked.walker.AtRest? then looked else SendMessage(CommitRow(looked))
  }
}
