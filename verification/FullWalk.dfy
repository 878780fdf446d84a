/** The filesystem and blob producers: every run lists the whole source and has no resume point. */
module FullWalk {
  import opened Base
  import opened Protocol
  import opened Safety
  import opened Interleaving
  import opened Enqueuers
  import opened Enumeration

  datatype WalkStatus = Idle | Walking | Interrupted | WalkCompleted

  /** The `sync_state` row of one drive. */
  class SyncState {
    const id: nat
    const driveId: string
    var deltaToken: Option<string>
    var resumeToken: Option<string>
    var walkStatus: WalkStatus
    var lastSyncedAt: Option<int>

    constructor (id: nat, driveId: string)
      ensures this.id == id && this.driveId == driveId
      ensures deltaToken == None && resumeToken == None && walkStatus == Idle && lastSyncedAt == None
    {
      this.id, this.driveId := id, driveId;
      deltaToken, resumeToken, walkStatus, lastSyncedAt := None, None, Idle, None;
    }
  }

  /** The listed entries that are supported documents, in listing order. */
  function Candidates(listing: seq<Option<Candidate>>): seq<Candidate> {
    if listing == [] then []
    else
      var n := |listing| - 1;
      Candidates(listing[..n]) + if listing[n].Some? then [listing[n].value] else []
  }

  /** The candidates a process has looked at, in order. */
  ghost function Looked(es: seq<Event>): seq<Candidate> {
    if es == [] then []
    else
      var n := |es| - 1;
      Looked(es[..n]) + if es[n].Look? then [es[n].candidate] else []
  }

  /** All looks carry this sync row, drive and source. */
  ghost predicate LooksFrom(es: seq<Event>, origin: Origin) {
    forall i :: 0 <= i < |es| && es[i].Look? ==> es[i].origin == origin
  }

  lemma {:induction false} LookedConcat(es: seq<Event>, more: seq<Event>)
    ensures Looked(es + more) == Looked(es) + Looked(more)
  {
    if more == [] {
      assert es + more == es;
    } else {
      var n := |more| - 1;
      LookedConcat(es, more[..n]);
      assert (es + more)[..|es| + n] == es + more[..n];
    }
  }

  class FullWalker {
    const enqueuer: Enqueuer
    const sync: SyncState
    const source: Source

    constructor (enqueuer: Enqueuer, sync: SyncState, source: Source)
      ensures this.enqueuer == enqueuer && this.sync == sync && this.source == source
    {
      this.enqueuer, this.sync, this.source := enqueuer, sync, source;
    }

    function Origin(): Origin {
      Protocol.Origin(sync.id, sync.driveId, source)
    }

    /** Hand one candidate to the enqueuer; `seen` are the candidates of this walk so far. */
    method Offer(c: Candidate, ghost before: State, ghost seen: seq<Candidate>) returns (ok: bool)
      requires enqueuer.Valid() && enqueuer.world.walker.AtRest?
      requires before.walker.AtRest? && |before.documents| == |before.books|
      modifies enqueuer`tick, enqueuer`trace, enqueuer.world
      ensures enqueuer.Valid() && enqueuer.world.walker.AtRest?
      ensures old(enqueuer.trace) <= enqueuer.trace
      ensures Looked(enqueuer.Mine()) == old(Looked(enqueuer.Mine())) + [c]
      ensures LooksFrom(old(enqueuer.Mine()), Origin()) ==> LooksFrom(enqueuer.Mine(), Origin())
      ensures !ok ==> !enqueuer.Reliable()
      ensures enqueuer.Alone() && enqueuer.Reliable() &&
              old(enqueuer.world.Now()) == VisitAll(before, Origin(), seen) ==>
        enqueuer.world.Now() == VisitAll(before, Origin(), seen + [c])
    {
      hide Visit, VisitAll, Safe, CanRun, Exec, Foreign, Looked, LooksFrom, Own, QueueScript;
      hide Enqueuer.Reliable, Enqueuer.Alone;
      ghost var own := enqueuer.Mine();
      ghost var tail;
      ok, tail := enqueuer.EnqueueIfNeeded(Origin(), c);
      LookedOne(own, tail, Origin(), c);
      VisitAllSnoc(before, Origin(), seen, c);
      if LooksFrom(own, Origin()) {
        LooksFromOne(own, tail, Origin(), c);
      }
    }

    /**
      One walk.  An entry is a supported document, an unsupported one (`None`), or a listing or read
      that raises; `saves` says whether the closing commit succeeds.  Under any interleaving the walk
      looks at every candidate up to `stop`, in order, never touches the tokens, and is stamped
      completed only when it got to the end.  Alone, it has exactly the effect of `VisitAll`.
    */
    method Walk(listing: seq<Entry>, saves: bool, now: int) returns (ok: bool, ghost stop: nat)
      requires enqueuer.Valid() && enqueuer.world.walker.AtRest?
      modifies enqueuer`tick, enqueuer`trace, enqueuer.world, sync`walkStatus, sync`lastSyncedAt
      ensures enqueuer.Valid() && enqueuer.world.walker.AtRest?
      ensures stop <= |listing| && forall i :: 0 <= i < stop ==> listing[i].Ok?
      ensures old(enqueuer.trace) <= enqueuer.trace
      ensures Swept(old(enqueuer.world.Now()), enqueuer.world.Now(), enqueuer.trace[|old(enqueuer.trace)|..],
                    Offers(listing[..stop]))
      ensures var origin := Protocol.Origin(sync.id, sync.driveId, source);
        LooksFrom(old(enqueuer.Mine()), origin) ==> LooksFrom(enqueuer.Mine(), origin)
      ensures ok ==> stop == |listing| && saves && sync.walkStatus == WalkCompleted && sync.lastSyncedAt == Some(now)
      ensures !ok ==> sync.walkStatus == Walking && sync.lastSyncedAt == old(sync.lastSyncedAt)
      ensures !ok ==>
        || (stop < |listing| && listing[stop].Err?)
        || (stop == |listing| && !saves)
        || (!enqueuer.Reliable() && stop > 0 && listing[stop - 1].value.Some?)
      ensures enqueuer.Alone() && enqueuer.Reliable() ==>
        && |old(enqueuer.world.documents)| == |old(enqueuer.world.books)|
        && enqueuer.world.Now() == VisitAll(old(enqueuer.world.Now()), Origin(), Candidates(Offers(listing[..stop])))
    {
      hide Visit, Safe, CanRun, Exec, Foreign, Enqueuer.Reliable, Enqueuer.Alone, Looked, Own, Candidates, Offers;
      hide LooksFrom;
      NothingOffered(listing);
      sync.walkStatus := Walking;
      ghost var before, mine := enqueuer.world.Now(), enqueuer.Mine();
      assert |before.documents| == |before.books| by { RowsHaveBooks(enqueuer); }
      ok, stop := true, 0;
      var i := 0;
      while i < |listing| && ok
        invariant i <= |listing| && stop == i && forall j :: 0 <= j < i ==> listing[j].Ok?
        invariant !ok ==> !enqueuer.Reliable() && i > 0 && listing[i - 1].value.Some?
        invariant enqueuer.Valid() && enqueuer.world.walker.AtRest?
        invariant sync.walkStatus == Walking && sync.lastSyncedAt == old(sync.lastSyncedAt)
        invariant old(enqueuer.trace) <= enqueuer.trace
        invariant Looked(enqueuer.Mine()) == Looked(mine) + Candidates(Offers(listing[..i]))
        invariant LooksFrom(mine, Origin()) ==> LooksFrom(enqueuer.Mine(), Origin())
        invariant enqueuer.Alone() && enqueuer.Reliable() ==>
          enqueuer.world.Now() == VisitAll(before, Origin(), Candidates(Offers(listing[..i])))
      {
        if listing[i].Err? {
          break;
        }
        OffersSnoc(listing, i);
        if listing[i].value.Some? {
          ok := Offer(listing[i].value.value, before, Candidates(Offers(listing[..i])));
        }
        i := i + 1;
        stop := i;
      }
      TraceSince(enqueuer.start, old(enqueuer.trace), enqueuer.trace, Offers(listing[..i]));
      if !ok || i < |listing| || !saves {
        return false, i;
      }
      sync.walkStatus, sync.lastSyncedAt := WalkCompleted, Some(now);
    }
  }

  /** What enumerating one file or blob comes to: a candidate, nothing to do, or an error that ends the walk. */
  type Entry = Result<Option<Candidate>, string>

  function Offers(listing: seq<Entry>): seq<Option<Candidate>> {
    seq(|listing|, i requires 0 <= i < |listing| => if listing[i].Ok? then listing[i].value else None)
  }

  lemma NothingOffered(listing: seq<Entry>)
    ensures Candidates(Offers(listing[..0])) == []
  {
  }

  lemma OffersSnoc(listing: seq<Entry>, i: nat)
    requires i < |listing| && listing[i].Ok?
    ensures var seen := Candidates(Offers(listing[..i]));
      Candidates(Offers(listing[..i + 1])) ==
        if listing[i].value.Some? then seen + [listing[i].value.value] else seen
  {
    assert Offers(listing[..i + 1])[..i] == Offers(listing[..i]);
  }

  /** Between these two states es happened, and in it the walker looked at the listing. */
  ghost predicate Swept(before: State, after: State, es: seq<Event>, listing: seq<Option<Candidate>>) {
    && CanRun(before, es) && Exec(before, es) == after
    && Looked(Own(es, TheWalker)) == Candidates(listing)
  }

  lemma TraceSince(start: State, before: seq<Event>, trace: seq<Event>, listing: seq<Option<Candidate>>)
    requires before <= trace && CanRun(start, trace)
    requires Looked(Own(trace, TheWalker)) == Looked(Own(before, TheWalker)) + Candidates(listing)
    ensures CanRun(start, before) && Swept(Exec(start, before), Exec(start, trace), trace[|before|..], listing)
  {
    hide CanRun, Exec, Looked, Own, Candidates;
    var es := trace[|before|..];
    assert trace == before + es;
    RunSplit(start, before, es);
    OwnConcat(before, es, TheWalker);
    LookedConcat(Own(before, TheWalker), Own(es, TheWalker));
    Cancel(Looked(Own(before, TheWalker)), Looked(Own(es, TheWalker)), Candidates(listing));
  }

  lemma Cancel<T>(front: seq<T>, a: seq<T>, b: seq<T>)
    requires front + a == front + b
    ensures a == b
  {
    assert (front + a)[|front|..] == a && (front + b)[|front|..] == b;
  }

  lemma VisitAllSnoc(s: State, origin: Origin, cs: seq<Candidate>, c: Candidate)
    requires s.walker.AtRest? && |s.documents| == |s.books|
    ensures VisitAll(s, origin, cs + [c]) == Visit(VisitAll(s, origin, cs), origin, c)
  {
    assert (cs + [c])[..|cs|] == cs;
  }

  lemma RowsHaveBooks(enqueuer: Enqueuer)
    requires enqueuer.Valid()
    ensures |enqueuer.world.Now().documents| == |enqueuer.world.Now().books|
  {
  }

  /** Whatever becomes of the candidate, the enqueuer looks at it exactly once. */
  lemma LookedOne(own: seq<Event>, tail: seq<Event>, origin: Origin, c: Candidate)
    requires forall i :: 0 <= i < |tail| ==> !tail[i].Look?
    ensures Looked(own + ([Look(origin, c)] + tail)) == Looked(own) + [c]
  {
    LookedConcat(own, [Look(origin, c)] + tail);
    LookedConcat([Look(origin, c)], tail);
    NoLooks(tail);
    assert [Look(origin, c)][..0] == [];
  }

  lemma LooksFromOne(own: seq<Event>, tail: seq<Event>, origin: Origin, c: Candidate)
    requires forall i :: 0 <= i < |tail| ==> !tail[i].Look?
    requires LooksFrom(own, origin)
    ensures LooksFrom(own + ([Look(origin, c)] + tail), origin)
  {
  }

  lemma {:induction false} NoLooks(es: seq<Event>)
    requires forall i :: 0 <= i < |es| ==> !es[i].Look?
    ensures Looked(es) == []
  {
    if es != [] {
      NoLooks(es[..|es| - 1]);
    }
  }
}
