/** The SharePoint producer: one budgeted, resumable walk over the delta feed. */
module DeltaWalk {
  import opened Base
  import opened Protocol
  import opened Safety
  import opened Interleaving
  import opened Enqueuers
  import opened FullWalk
  import opened Delta

  function Offered(items: seq<DriveItem>): seq<Option<Candidate>> {
    if items == [] then []
    else Offered(items[..|items| - 1]) + [Considered(items[|items| - 1])]
  }

  lemma OfferedSnoc(items: seq<DriveItem>, x: DriveItem)
    ensures Candidates(Offered(items + [x])) ==
              Candidates(Offered(items)) + if Considered(x).Some? then [Considered(x).value] else []
  {
    assert (items + [x])[..|items|] == items;
    var o := Offered(items);
    assert (o + [Considered(x)])[..|o|] == o;
  }

  class DeltaWalker {
    const enqueuer: Enqueuer
    const sync: SyncState
    const initial: string             // the initial delta URL of the configured subtree
    const budget: int
    ghost var handed: seq<DriveItem>  // every item given to `_process_item`, over all walks

    constructor (enqueuer: Enqueuer, sync: SyncState, initial: string, budget: int)
      requires enqueuer.Valid() && enqueuer.world.walker.AtRest? && enqueuer.trace == []
      ensures Ready()
      ensures this.enqueuer == enqueuer && this.sync == sync && this.initial == initial && this.budget == budget
      ensures handed == []
    {
      this.enqueuer, this.sync, this.initial, this.budget, handed := enqueuer, sync, initial, budget, [];
    }

    function Tokens(): Saved
      reads sync
    {
      Saved(sync.deltaToken, sync.resumeToken)
    }

    /**
      Between items; so far the enqueuer has looked at exactly the candidates among the handed items,
      under this drive's sync row.
    */
    ghost predicate Ready()
      reads this`handed, enqueuer, enqueuer.world
    {
      && enqueuer.Valid() && enqueuer.world.walker.AtRest?
      && Looked(enqueuer.Mine()) == Candidates(Offered(handed))
      && LooksFrom(enqueuer.Mine(), Origin(sync.id, sync.driveId, SharePoint))
    }

    /** Hand one item to the enqueuer, unless it carries no content signal. */
    method ProcessItem(item: DriveItem) returns (ok: bool)
      requires Ready()
      modifies enqueuer`tick, enqueuer`trace, enqueuer.world, `handed
      ensures Ready() && handed == old(handed) + [item]
      ensures item.deleted || item.file.None? || item.file.value.hashes.None? ==>
        Looked(enqueuer.Mine()) == old(Looked(enqueuer.Mine()))
      ensures !item.deleted && item.file.Some? && item.file.value.hashes.Some? ==>
        var h := item.file.value.hashes.value;
        var fields := [h.quickXorHash, h.sha256Hash, h.crc32Hash];
        && (AllEmpty(fields) ==> Looked(enqueuer.Mine()) == old(Looked(enqueuer.Mine())))
        && (forall hash :: FirstNonEmpty(fields, hash) ==>
              Looked(enqueuer.Mine()) ==
                old(Looked(enqueuer.Mine()))
                + [Candidate(item.id, hash, item.name, item.file.value.mimeType, item.parentPath)])
      ensures !ok ==> !enqueuer.Reliable()
    {
      hide Safe, CanRun, Exec, Foreign, Visit, QueueScript, Looked, LooksFrom, Offered, Candidates, Own;
      hide Enqueuer.Reliable, FirstNonEmpty, AllEmpty, Considered;
      ConsideredExactly(item);
      OfferedSnoc(handed, item);
      handed := handed + [item];
      ok := true;
      var c := Considered(item);
      if c.Some? {
        var origin := Origin(sync.id, sync.driveId, SharePoint);
        ghost var own := enqueuer.Mine();
        ghost var tail;
        ok, tail := enqueuer.EnqueueIfNeeded(origin, c.value);
        LookedOne(own, tail, origin, c.value);
        LooksFromOne(own, tail, origin, c.value);
      }
    }

    method ProcessPage(items: seq<DriveItem>) returns (ok: bool, ghost got: seq<DriveItem>)
      requires Ready()
      modifies enqueuer`tick, enqueuer`trace, enqueuer.world, `handed
      ensures Ready()
      ensures handed == old(handed) + got && got <= items
      ensures ok ==> got == items
      ensures !ok ==> !enqueuer.Reliable()
    {
      hide DeltaWalker.Ready, Enqueuer.Reliable;
      var i := 0;
      while i < |items|
        invariant i <= |items| && Ready()
        invariant handed == old(handed) + items[..i]
      {
        ok := ProcessItem(items[i]);
        assert items[..i + 1] == items[..i] + [items[i]];
        assert handed == old(handed) + items[..i + 1];
        if !ok {
          return false, items[..i + 1];
        }
        i := i + 1;
      }
      assert items[..|items|] == items;
      return true, items;
    }

    method Complete(deltaLink: string, now: int)
      modifies sync
      ensures Tokens() == Saved(Some(deltaLink), None)
      ensures sync.walkStatus == WalkCompleted && sync.lastSyncedAt == Some(now)
    {
      sync.deltaToken, sync.resumeToken := Some(deltaLink), None;
      sync.walkStatus, sync.lastSyncedAt := WalkCompleted, Some(now);
    }

    method Interrupt(resumeLink: string)
      modifies sync`resumeToken, sync`walkStatus
      ensures Tokens() == old(Tokens()).(resume := Some(resumeLink)) && sync.walkStatus == Interrupted
    {
      sync.resumeToken, sync.walkStatus := Some(resumeLink), Interrupted;
    }

    /**
      One walk over the chain us.  `clock(0)` is read before the first page and `clock(j)` after
      the j-th; `fetchFails` says which page requests raise and `saves` whether the closing commit
      succeeds (a failed one is rolled back).  The walk ends in one of the ways
      `Ending` lists, leaves exactly the tokens that ending prescribes, hands over exactly the items
      it prescribes, and is cut after the first page at which the budget is spent.
    */
    method Walk(feed: Feed, fetchFails: nat -> bool, clock: nat -> int, saves: bool, ghost us: seq<string>)
      returns (status: Option<WalkStatus>, ghost ending: Ending)
      requires Ready() && ChainFrom(feed, us, StartUrl(Tokens(), initial))
      modifies enqueuer`tick, enqueuer`trace, enqueuer.world, `handed, sync
      ensures us != [] && StartsAt(old(Tokens()), initial, us[0])
      ensures Ready()
      ensures Possible(feed, us, ending)
      ensures Tokens() == SavedAfter(feed, old(Tokens()), us, ending)
      ensures handed == old(handed) + Handed(feed, us, ending)
      ensures match ending {
        case Finished =>
          && (forall j :: 0 <= j < |us| ==> !fetchFails(j))
          && status == Some(WalkCompleted) && sync.walkStatus == WalkCompleted && sync.lastSyncedAt == Some(clock(|us|))
          && forall j :: 1 <= j < |us| ==> clock(j) < clock(0) + budget
        case Cut(n) =>
          && (forall j :: 0 <= j < n ==> !fetchFails(j))
          && status == Some(Interrupted) && sync.walkStatus == Interrupted
          && sync.lastSyncedAt == old(sync.lastSyncedAt)
          && clock(n) >= clock(0) + budget
          && forall j :: 1 <= j < n ==> clock(j) < clock(0) + budget
        case Died(_) =>
          && (|| !enqueuer.Reliable()
              || StoppedAt(feed, us, ending, fetchFails)
              || (ending == Died(|Items(feed, us)|) && (DeltaLink(feed, us).None? || !saves))
              || (!saves && SpentAt(feed, us, ending, clock, clock(0) + budget)))
          && status == None && sync.walkStatus == Walking && sync.lastSyncedAt == old(sync.lastSyncedAt)
      }
    {
      hide DeltaWalker.Ready, Items, ChainFrom, DeltaLink, Enqueuer.Reliable, Enqueuer.Valid;
      hide Possible, SavedAfter, Handed;
      sync.walkStatus := Walking;
      var deadline := clock(0) + budget;
      var i, stop, link;
      ghost var done;
      i, stop, link, done := Pages(feed, fetchFails, clock, deadline, us);
      DeadEnd(feed, Tokens(), us, done);
      ChainStart(feed, us, StartUrl(Tokens(), initial));
      StartUrlExactly(Tokens(), initial, us[0]);
      match stop {
        case Error =>
          return None, Died(|done|);
        case LastPage =>
          if link.None? || !saves {
            return None, Died(|done|);
          }
          FullEnd(feed, Tokens(), us);
          Complete(link.value, clock(i));
          return Some(WalkCompleted), Finished;
        case BudgetSpent =>
          if !saves {
            return None, Died(|done|);
          }
          CutEnd(feed, Tokens(), us, i);
          Interrupt(link.value);
          return Some(Interrupted), Cut(i);
      }
    }

    /**
      The page loop: i pages were processed before it stopped, and `link` is where the walk may go on
      from, the deltaLink after the last page and the nextLink when the budget is spent.
    */
    method Pages(feed: Feed, fetchFails: nat -> bool, clock: nat -> int, deadline: int, ghost us: seq<string>)
      returns (i: nat, stop: Stop, link: Option<string>, ghost done: seq<DriveItem>)
      requires Ready() && ChainFrom(feed, us, StartUrl(Tokens(), initial))
      modifies enqueuer`tick, enqueuer`trace, enqueuer.world, `handed
      ensures Ready() && handed == old(handed) + done && done <= Items(feed, us)
      ensures i <= |us| && forall j :: 0 <= j < i ==> !fetchFails(j)
      ensures forall j :: 1 <= j < i ==> clock(j) < deadline
      ensures match stop {
        case LastPage => i == |us| && done == Items(feed, us) && us != [] && link == DeltaLink(feed, us)
        case BudgetSpent => 1 <= i < |us| && done == Items(feed, us[..i]) && clock(i) >= deadline && link == Some(us[i])
        case Error => !enqueuer.Reliable() || (i < |us| && fetchFails(i) && done == Items(feed, us[..i]))
      }
    {
      hide DeltaWalker.Ready, Items, ChainFrom, DeltaLink, Enqueuer.Reliable, Enqueuer.Valid;
      var url := Or(Or(sync.resumeToken, sync.deltaToken), Some(initial)).value;
      i, done, link := 0, [], None;
      ChainStart(feed, us, url);
      while true
        invariant i < |us| && url == us[i] && Ready()
        invariant done == Items(feed, us[..i]) && done <= Items(feed, us) && handed == old(handed) + done
        invariant forall j :: 1 <= j <= i ==> clock(j) < deadline
        invariant forall j :: 0 <= j < i ==> !fetchFails(j)
        decreases |us| - i
      {
        NextPage(feed, us, us[0], i);
        if fetchFails(i) {
          return i, Error, None, done;
        }
        var page := feed(url).value;
        var ok;
        ghost var got;
        ok, got := ProcessPage(page.items);
        done := done + got;
        if !ok {
          return i, Error, None, done;
        }
        i := i + 1;
        if page.nextLink.None? {
          return i, LastPage, page.deltaLink, done;
        }
        if clock(i) >= deadline {
          return i, BudgetSpent, page.nextLink, done;
        }
        url := page.nextLink.value;
      }
    }
  }

  /** Why the page loop stopped. */
  datatype Stop = Error | LastPage | BudgetSpent

  /** The walk died requesting a page it had come to, with the items of all pages before it. */
  ghost predicate StoppedAt(feed: Feed, us: seq<string>, e: Ending, fetchFails: nat -> bool) {
    exists i: nat :: i < |us| && fetchFails(i) && e == Died(|Items(feed, us[..i])|)
  }

  /** The walk died after a page that is not the last, at which its budget was spent. */
  ghost predicate SpentAt(feed: Feed, us: seq<string>, e: Ending, clock: nat -> int, deadline: int) {
    exists i: nat :: 1 <= i < |us| && clock(i) >= deadline && e == Died(|Items(feed, us[..i])|)
  }

  /** Which items reach the enqueuer, and as what. */
  lemma ConsideredExactly(item: DriveItem)
    ensures item.deleted || item.file.None? || item.file.value.hashes.None? ==> Considered(item) == None
    ensures !item.deleted && item.file.Some? && item.file.value.hashes.Some? ==>
      var h := item.file.value.hashes.value;
      var fields := [h.quickXorHash, h.sha256Hash, h.crc32Hash];
      && (AllEmpty(fields) ==> Considered(item) == None)
      && (forall hash :: FirstNonEmpty(fields, hash) ==>
            Considered(item) == Some(Candidate(item.id, hash, item.name, item.file.value.mimeType, item.parentPath)))
  {
    hide ContentHash, FirstNonEmpty, AllEmpty;
    if item.deleted || item.file.None? || item.file.value.hashes.None? {
      NoHashes(item);
    } else {
      forall hash
        ensures var h := item.file.value.hashes.value;
          var fields := [h.quickXorHash, h.sha256Hash, h.crc32Hash];
          && (ContentHash(item) == Some(hash) <==> FirstNonEmpty(fields, hash))
          && (ContentHash(item) == None <==> AllEmpty(fields))
      {
        ContentHashIsTheFirst(item, hash);
      }
      ContentHashIsTheFirst(item, "");
    }
  }

  lemma NoHashes(item: DriveItem)
    requires item.deleted || item.file.None? || item.file.value.hashes.None?
    ensures Considered(item) == None
  {
  }

  lemma ChainStart(feed: Feed, us: seq<string>, url: string)
    requires ChainFrom(feed, us, url)
    ensures us != [] && us[0] == url && ChainFrom(feed, us, us[0])
    ensures Items(feed, us[..0]) == []
  {
  }

  // What a walk leaves behind at each of its endings.

  lemma DeadEnd(feed: Feed, saved: Saved, us: seq<string>, done: seq<DriveItem>)
    requires done <= Items(feed, us)
    ensures Possible(feed, us, Died(|done|))
    ensures SavedAfter(feed, saved, us, Died(|done|)) == saved && Handed(feed, us, Died(|done|)) == done
  {
  }

  lemma CutEnd(feed: Feed, saved: Saved, us: seq<string>, n: nat)
    requires 1 <= n < |us|
    ensures Possible(feed, us, Cut(n))
    ensures SavedAfter(feed, saved, us, Cut(n)) == saved.(resume := Some(us[n]))
    ensures Handed(feed, us, Cut(n)) == Items(feed, us[..n])
  {
  }

  lemma FullEnd(feed: Feed, saved: Saved, us: seq<string>)
    requires us != [] && DeltaLink(feed, us).Some?
    ensures Possible(feed, us, Finished)
    ensures SavedAfter(feed, saved, us, Finished) == Saved(DeltaLink(feed, us), None)
    ensures Handed(feed, us, Finished) == Items(feed, us)
  {
  }

  /** What the i-th page of a chain adds and where it leads. */
  lemma NextPage(feed: Feed, us: seq<string>, url: string, i: nat)
    requires ChainFrom(feed, us, url) && i < |us|
    ensures feed(us[i]).Some?
    ensures Items(feed, us[..i + 1]) == Items(feed, us[..i]) + feed(us[i]).value.items
    ensures Items(feed, us[..i]) <= Items(feed, us[..i + 1]) <= Items(feed, us)
    ensures feed(us[i]).value.nextLink == if i + 1 < |us| then Some(us[i + 1]) else None
    ensures i + 1 == |us| ==>
              Items(feed, us[..i + 1]) == Items(feed, us) && feed(us[i]).value.deltaLink == DeltaLink(feed, us)
  {
    ItemsStep(feed, us, i);
    hide Items;
    ItemsPrefix(feed, us, i + 1);
    if i + 1 == |us| {
      assert us[..i + 1] == us;
    }
  }

  lemma ItemsStep(feed: Feed, us: seq<string>, i: nat)
    requires i < |us| && feed(us[i]).Some?
    ensures Items(feed, us[..i + 1]) == Items(feed, us[..i]) + feed(us[i]).value.items
  {
    assert us[..i + 1][..i] == us[..i];
  }

  /** The items of the first pages are the first items. */
  lemma ItemsPrefix(feed: Feed, us: seq<string>, n: nat)
    requires n <= |us|
    ensures Items(feed, us[..n]) <= Items(feed, us)
  {
    hide Items;
    assert us == us[..n] + us[n..];
    ItemsConcat(feed, us[..n], us[n..]);
  }
}
