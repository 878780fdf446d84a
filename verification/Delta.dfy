/**
  The delta feed and the two saved tokens, as values: what one walk may do to them and what any
  sequence of walks adds up to.  The links are those of OData Version 4.0 Part 1, sections
  11.2.5.7 (nextLink) and 11.3 (deltaLink).
*/
module Delta {
  import opened Base
  import opened Protocol

  datatype Hashes = Hashes(quickXorHash: Option<string>, sha256Hash: Option<string>, crc32Hash: Option<string>)

  datatype FileFacet = FileFacet(mimeType: Option<string>, hashes: Option<Hashes>)

  datatype DriveItem = DriveItem(
    id: string, deleted: bool, file: Option<FileFacet>, name: Option<string>, parentPath: Option<string>)

  function Truthy(a: Option<string>): Option<string> {
    if a == Some("") then None else a
  }

  /** quickXorHash, else sha256Hash, else crc32Hash; empty values do not count. */
  function ContentHash(item: DriveItem): Option<string> {
    if item.file.None? || item.file.value.hashes.None? then None
    else
      var h := item.file.value.hashes.value;
      Truthy(Or(h.quickXorHash, Or(h.sha256Hash, h.crc32Hash)))
  }

  predicate AllEmpty(fields: seq<Option<string>>) {
    forall j :: 0 <= j < |fields| ==> fields[j] == None || fields[j] == Some("")
  }

  ghost predicate FirstNonEmpty(fields: seq<Option<string>>, hash: string) {
    hash != "" && exists i :: 0 <= i < |fields| && fields[i] == Some(hash) && AllEmpty(fields[..i])
  }

  /** The content hash is the first non-empty one of the three, in the order of preference. */
  lemma ContentHashIsTheFirst(item: DriveItem, hash: string)
    requires item.file.Some? && item.file.value.hashes.Some?
    ensures var h := item.file.value.hashes.value;
      var fields := [h.quickXorHash, h.sha256Hash, h.crc32Hash];
      && (ContentHash(item) == Some(hash) <==> FirstNonEmpty(fields, hash))
      && (ContentHash(item) == None <==> AllEmpty(fields))
  {
    var h := item.file.value.hashes.value;
    var fields := [h.quickXorHash, h.sha256Hash, h.crc32Hash];
    assert fields[0] == h.quickXorHash && fields[1] == h.sha256Hash && fields[2] == h.crc32Hash;
    assert forall i :: 0 <= i < 3 ==> forall j :: 0 <= j < i ==> fields[..i][j] == fields[j];
  }

  /** The candidate `_process_item` hands on; tombstones, folders and hashless items give none. */
  function Considered(item: DriveItem): Option<Candidate> {
    if item.deleted || ContentHash(item).None? then None
    else Some(Candidate(item.id, ContentHash(item).value, item.name, item.file.value.mimeType, item.parentPath))
  }

  // ---- the feed ----

  datatype Page = Page(items: seq<DriveItem>, nextLink: Option<string>, deltaLink: Option<string>)

  /** A link keeps naming the same page; `None` is a page that does not exist. */
  type Feed = string -> Option<Page>

  /** us are the links of a finite page chain that starts at url and ends with a page without nextLink. */
  ghost predicate ChainFrom(feed: Feed, us: seq<string>, url: string) {
    && us != [] && us[0] == url
    && (forall i :: 0 <= i < |us| ==> feed(us[i]).Some?)
    && (forall i :: 0 <= i < |us| - 1 ==> feed(us[i]).value.nextLink == Some(us[i + 1]))
    && feed(us[|us| - 1]).value.nextLink == None
  }

  /** Tokens are non-empty strings: the code treats an empty token as no token. */
  ghost predicate LinksNonEmpty(feed: Feed, us: seq<string>) {
    forall i :: 0 <= i < |us| ==> us[i] != ""
  }

  function Items(feed: Feed, us: seq<string>): seq<DriveItem> {
    if us == [] then []
    else Items(feed, us[..|us| - 1]) + var p := feed(us[|us| - 1]); if p.Some? then p.value.items else []
  }

  function DeltaLink(feed: Feed, us: seq<string>): Option<string>
    requires us != []
  {
    var p := feed(us[|us| - 1]);
    if p.Some? then p.value.deltaLink else None
  }

  // ---- the saved position ----

  datatype Saved = Saved(delta: Option<string>, resume: Option<string>)

  /** resume token, else delta token, else the initial delta URL. */
  function StartUrl(saved: Saved, initial: string): string {
    Or(Or(saved.resume, saved.delta), Some(initial)).value
  }

  /** How one walk over a chain ended: at its end, between pages, or by an error or crash. */
  datatype Ending = Finished | Cut(pages: nat) | Died(items: nat)

  ghost predicate Possible(feed: Feed, us: seq<string>, e: Ending) {
    match e
    case Finished => us != [] && DeltaLink(feed, us).Some?
    case Cut(n) => 1 <= n < |us|
    case Died(k) => k <= |Items(feed, us)|
  }

  ghost function SavedAfter(feed: Feed, saved: Saved, us: seq<string>, e: Ending): Saved
    requires Possible(feed, us, e)
  {
    match e
    case Finished => Saved(DeltaLink(feed, us), None)
    case Cut(n) => saved.(resume := Some(us[n]))
    case Died(_) => saved
  }

  ghost function Handed(feed: Feed, us: seq<string>, e: Ending): seq<DriveItem>
    requires Possible(feed, us, e)
  {
    match e
    case Finished => Items(feed, us)
    case Cut(n) => Items(feed, us[..n])
    case Died(k) => Items(feed, us)[..k]
  }

  /** The pages a walk that did not die took off the chain. */
  ghost function Taken(us: seq<string>, e: Ending): seq<string> {
    match e
    case Finished => us
    case Cut(n) => if n <= |us| then us[..n] else us
    case Died(_) => []
  }

  // ---- sequences of walks ----

  datatype Run = Run(us: seq<string>, ending: Ending)

  ghost predicate Runs(feed: Feed, initial: string, saved: Saved, ws: seq<Run>)
    decreases |ws|
  {
    ws == [] ||
    (&& ChainFrom(feed, ws[0].us, StartUrl(saved, initial))
     && Possible(feed, ws[0].us, ws[0].ending)
     && Runs(feed, initial, SavedAfter(feed, saved, ws[0].us, ws[0].ending), ws[1..]))
  }

  ghost function Final(feed: Feed, initial: string, saved: Saved, ws: seq<Run>): Saved
    requires Runs(feed, initial, saved, ws)
    decreases |ws|
  {
    if ws == [] then saved
    else Final(feed, initial, SavedAfter(feed, saved, ws[0].us, ws[0].ending), ws[1..])
  }

  ghost function AllHanded(feed: Feed, initial: string, saved: Saved, ws: seq<Run>): seq<DriveItem>
    requires Runs(feed, initial, saved, ws)
    decreases |ws|
  {
    if ws == [] then []
    else Handed(feed, ws[0].us, ws[0].ending)
         + AllHanded(feed, initial, SavedAfter(feed, saved, ws[0].us, ws[0].ending), ws[1..])
  }

  ghost function AllTaken(ws: seq<Run>): seq<string> {
    if ws == [] then [] else Taken(ws[0].us, ws[0].ending) + AllTaken(ws[1..])
  }

  /** No walk of the sequence but possibly the last one finishes. */
  ghost predicate OnlyLastFinishes(ws: seq<Run>) {
    forall i :: 0 <= i < |ws| - 1 ==> !ws[i].ending.Finished?
  }

  // ---- chains ----

  lemma FirstLink(feed: Feed, us: seq<string>, url: string)
    requires ChainFrom(feed, us, url)
    ensures feed(url).Some? && feed(url).value.nextLink == if |us| > 1 then Some(us[1]) else None
  {
    if |us| > 1 {
      assert feed(us[0]).value.nextLink == Some(us[1]);
    }
  }

  /** A link determines the rest of its chain. */
  lemma {:induction false} ChainIsUnique(feed: Feed, us: seq<string>, vs: seq<string>, url: string)
    requires ChainFrom(feed, us, url) && ChainFrom(feed, vs, url)
    ensures us == vs
    decreases |us|
  {
    FirstLink(feed, us, url);
    FirstLink(feed, vs, url);
    if |us| == 1 {
      assert us == vs;
    } else {
      ChainSuffix(feed, us, url, 1);
      ChainSuffix(feed, vs, url, 1);
      ChainIsUnique(feed, us[1..], vs[1..], us[1]);
      assert us == [us[0]] + us[1..] && vs == [vs[0]] + vs[1..];
    }
  }

  lemma ChainSuffix(feed: Feed, us: seq<string>, url: string, n: nat)
    requires ChainFrom(feed, us, url) && n < |us|
    ensures ChainFrom(feed, us[n..], us[n])
  {
  }

  lemma {:induction false} ItemsConcat(feed: Feed, us: seq<string>, vs: seq<string>)
    ensures Items(feed, us + vs) == Items(feed, us) + Items(feed, vs)
  {
    if vs == [] {
      assert us + vs == us;
    } else {
      var n := |vs| - 1;
      ItemsConcat(feed, us, vs[..n]);
      assert (us + vs)[..|us| + n] == us + vs[..n];
    }
  }

  /** After a cut the next walk starts at the rest of the same chain. */
  lemma CutResumes(feed: Feed, initial: string, saved: Saved, us: seq<string>, n: nat)
    requires ChainFrom(feed, us, StartUrl(saved, initial)) && LinksNonEmpty(feed, us) && 1 <= n < |us|
    ensures ChainFrom(feed, us[n..], StartUrl(SavedAfter(feed, saved, us, Cut(n)), initial))
    ensures LinksNonEmpty(feed, us[n..])
    ensures Items(feed, us) == Items(feed, us[..n]) + Items(feed, us[n..])
    ensures DeltaLink(feed, us[n..]) == DeltaLink(feed, us)
    ensures us == us[..n] + us[n..]
  {
    ChainSuffix(feed, us, StartUrl(saved, initial), n);
    assert us == us[..n] + us[n..];
    ItemsConcat(feed, us[..n], us[n..]);
  }

  // ---- resume refinement and progress ----

  /**
    However the budgets fall, walks that are cut and one that finishes take together exactly the
    pages of one uninterrupted walk, each once and in order, hand over exactly its items, and end
    with the same tokens; and there are at most as many walks as pages.
  */
  lemma {:induction false} ResumeRefines(feed: Feed, initial: string, saved: Saved, us: seq<string>, ws: seq<Run>)
    requires ChainFrom(feed, us, StartUrl(saved, initial)) && LinksNonEmpty(feed, us)
    requires ws != [] && Runs(feed, initial, saved, ws) && OnlyLastFinishes(ws)
    requires ws[|ws| - 1].ending.Finished?
    requires forall i :: 0 <= i < |ws| ==> !ws[i].ending.Died?
    ensures AllTaken(ws) == us
    ensures AllHanded(feed, initial, saved, ws) == Items(feed, us)
    ensures Possible(feed, us, Finished) && Final(feed, initial, saved, ws) == SavedAfter(feed, saved, us, Finished)
    ensures |ws| <= |us|
    decreases |ws|
  {
    hide StartUrl, LinksNonEmpty, Items, DeltaLink, ChainFrom;
    ChainIsUnique(feed, us, ws[0].us, StartUrl(saved, initial));
    if |ws| == 1 {
      assert ws[1..] == [];
    } else {
      var n := ws[0].ending.pages;
      CutResumes(feed, initial, saved, us, n);
      ResumeRefines(feed, initial, SavedAfter(feed, saved, us, Cut(n)), us[n..], ws[1..]);
    }
  }

  /** Each cut moves the saved position strictly forward, so a chain of n pages allows fewer than n cuts. */
  lemma {:induction false} CutsAreBounded(feed: Feed, initial: string, saved: Saved, us: seq<string>, ws: seq<Run>)
    requires ChainFrom(feed, us, StartUrl(saved, initial)) && LinksNonEmpty(feed, us)
    requires Runs(feed, initial, saved, ws)
    requires forall i :: 0 <= i < |ws| ==> ws[i].ending.Cut?
    ensures |ws| < |us|
    ensures ws != [] ==> exists k :: |ws| <= k < |us| && Final(feed, initial, saved, ws).resume == Some(us[k])
    decreases |ws|
  {
    hide StartUrl, LinksNonEmpty, Items, DeltaLink;
    if ws != [] {
      ChainIsUnique(feed, us, ws[0].us, StartUrl(saved, initial));
      var n := ws[0].ending.pages;
      CutResumes(feed, initial, saved, us, n);
      var rest := SavedAfter(feed, saved, us, Cut(n));
      CutsAreBounded(feed, initial, rest, us[n..], ws[1..]);
      if ws[1..] == [] {
        assert Final(feed, initial, saved, ws).resume == Some(us[n]);
      } else {
        var k :| |ws[1..]| <= k < |us[n..]| && Final(feed, initial, rest, ws[1..]).resume == Some(us[n..][k]);
        assert us[n..][k] == us[n + k];
      }
    }
  }

  // ---- coverage under crashes ----

  ghost predicate Covers(handed: seq<DriveItem>, items: seq<DriveItem>) {
    forall x :: x in items ==> x in handed
  }

  /** resume is the next link of a page of the chain, and every item up to that page was handed over. */
  ghost predicate ResumesAfter(feed: Feed, us: seq<string>, resume: Option<string>, handed: seq<DriveItem>) {
    exists k :: 1 <= k < |us| && resume == Some(us[k])
      && feed(us[k - 1]).Some? && feed(us[k - 1]).value.nextLink == Some(us[k])
      && Covers(handed, Items(feed, us[..k]))
  }

  /** What resumes inside the rest of a chain, after all items before the rest, resumes inside the chain. */
  lemma ResumesInRest(
    feed: Feed, us: seq<string>, n: nat, resume: Option<string>, front: seq<DriveItem>, handed: seq<DriveItem>)
    requires n <= |us| && Covers(front, Items(feed, us[..n])) && ResumesAfter(feed, us[n..], resume, handed)
    ensures ResumesAfter(feed, us, resume, front + handed)
  {
    hide Items;
    var k :| 1 <= k < |us[n..]| && resume == Some(us[n..][k])
      && feed(us[n..][k - 1]).Some? && feed(us[n..][k - 1]).value.nextLink == Some(us[n..][k])
      && Covers(handed, Items(feed, us[n..][..k]));
    assert us[n..][k] == us[n + k] && us[n + k - 1] == us[n..][k - 1];
    assert us[..n + k] == us[..n] + us[n..][..k];
    ItemsConcat(feed, us[..n], us[n..][..k]);
    assert Covers(front + handed, Items(feed, us[..n + k]));
  }

  lemma ResumesAtCut(
    feed: Feed, url: string, us: seq<string>, n: nat, front: seq<DriveItem>, handed: seq<DriveItem>)
    requires ChainFrom(feed, us, url) && 1 <= n < |us| && Covers(front, Items(feed, us[..n]))
    ensures ResumesAfter(feed, us, Some(us[n]), front + handed)
  {
    hide Items;
    assert feed(us[n - 1]).value.nextLink == Some(us[n - 1 + 1]);
    assert Covers(front + handed, Items(feed, us[..n]));
  }

  /**
    Crashes included: until a walk finishes, the resume token is either the old one or the next
    link of a page before which every item was handed over; the delta token does not move.
  */
  lemma {:induction false} ResumeTokenIsSafe(feed: Feed, initial: string, saved: Saved, us: seq<string>, ws: seq<Run>)
    requires ChainFrom(feed, us, StartUrl(saved, initial)) && LinksNonEmpty(feed, us)
    requires Runs(feed, initial, saved, ws)
    requires forall i :: 0 <= i < |ws| ==> !ws[i].ending.Finished?
    ensures Final(feed, initial, saved, ws).delta == saved.delta
    ensures var resume := Final(feed, initial, saved, ws).resume;
      resume == saved.resume || ResumesAfter(feed, us, resume, AllHanded(feed, initial, saved, ws))
    decreases |ws|
  {
    hide StartUrl, LinksNonEmpty, Items, DeltaLink, ChainFrom, ResumesAfter;
    if ws != [] {
      ChainIsUnique(feed, us, ws[0].us, StartUrl(saved, initial));
      if ws[0].ending.Died? {
        ResumeTokenIsSafe(feed, initial, saved, us, ws[1..]);
        if Final(feed, initial, saved, ws).resume != saved.resume {
          ResumesWithMore(feed, us, Final(feed, initial, saved, ws).resume,
                          Handed(feed, us, ws[0].ending), AllHanded(feed, initial, saved, ws[1..]));
        }
      } else {
        var n := ws[0].ending.pages;
        CutResumes(feed, initial, saved, us, n);
        var rest := SavedAfter(feed, saved, us, Cut(n));
        ResumeTokenIsSafe(feed, initial, rest, us[n..], ws[1..]);
        var front, handed := Items(feed, us[..n]), AllHanded(feed, initial, rest, ws[1..]);
        if Final(feed, initial, saved, ws).resume == rest.resume {
          ResumesAtCut(feed, StartUrl(saved, initial), us, n, front, handed);
        } else {
          ResumesInRest(feed, us, n, Final(feed, initial, saved, ws).resume, front, handed);
        }
      }
    }
  }

  lemma ResumesWithMore(
    feed: Feed, us: seq<string>, resume: Option<string>, front: seq<DriveItem>, handed: seq<DriveItem>)
    requires ResumesAfter(feed, us, resume, handed)
    ensures ResumesAfter(feed, us, resume, front + handed)
  {
    hide Items;
    var k :| 1 <= k < |us| && resume == Some(us[k])
      && feed(us[k - 1]).Some? && feed(us[k - 1]).value.nextLink == Some(us[k])
      && Covers(handed, Items(feed, us[..k]));
    assert Covers(front + handed, Items(feed, us[..k]));
  }

  /**
    Whenever the delta token changes, every item on the chain from the previous start point to the
    new deltaLink has been handed over at least once, whatever cuts and crashes came before.
  */
  lemma {:induction false} CrashTolerantCoverage(
    feed: Feed, initial: string, saved: Saved, us: seq<string>, ws: seq<Run>)
    requires ChainFrom(feed, us, StartUrl(saved, initial)) && LinksNonEmpty(feed, us)
    requires ws != [] && Runs(feed, initial, saved, ws) && OnlyLastFinishes(ws)
    requires ws[|ws| - 1].ending.Finished?
    ensures forall x :: x in Items(feed, us) ==> x in AllHanded(feed, initial, saved, ws)
    ensures Final(feed, initial, saved, ws) == Saved(DeltaLink(feed, us), None)
    decreases |ws|
  {
    hide StartUrl, LinksNonEmpty, Items, DeltaLink;
    ChainIsUnique(feed, us, ws[0].us, StartUrl(saved, initial));
    if |ws| == 1 {
      assert ws[1..] == [];
    } else if ws[0].ending.Died? {
      CrashTolerantCoverage(feed, initial, saved, us, ws[1..]);
    } else {
      var n := ws[0].ending.pages;
      CutResumes(feed, initial, saved, us, n);
      CrashTolerantCoverage(feed, initial, SavedAfter(feed, saved, us, Cut(n)), us[n..], ws[1..]);
    }
  }

  // ---- any sequence of walks ----

  lemma {:induction false} RunsSplit(feed: Feed, initial: string, saved: Saved, ws: seq<Run>, k: nat)
    requires Runs(feed, initial, saved, ws) && k <= |ws|
    ensures Runs(feed, initial, saved, ws[..k])
    ensures var mid := Final(feed, initial, saved, ws[..k]);
      Runs(feed, initial, mid, ws[k..]) && Final(feed, initial, saved, ws) == Final(feed, initial, mid, ws[k..])
    decreases k
  {
    hide ChainFrom, SavedAfter, Possible;
    if k == 0 {
      assert ws[k..] == ws && ws[..k] == [];
    } else {
      RunsSplit(feed, initial, SavedAfter(feed, saved, ws[0].us, ws[0].ending), ws[1..], k - 1);
      assert ws[..k][1..] == ws[1..][..k - 1] && ws[k..] == ws[1..][k - 1..];
    }
  }

  /** Walks i to j are a sequence of their own, started where the walks before them left the tokens. */
  lemma Segment(feed: Feed, initial: string, saved: Saved, ws: seq<Run>, i: nat, j: nat)
    requires Runs(feed, initial, saved, ws) && i <= j <= |ws|
    ensures Runs(feed, initial, saved, ws[..i]) && Runs(feed, initial, saved, ws[..j])
    ensures var start := Final(feed, initial, saved, ws[..i]);
      && Runs(feed, initial, start, ws[i..j])
      && Final(feed, initial, saved, ws[..j]) == Final(feed, initial, start, ws[i..j])
      && (i < j ==> ChainFrom(feed, ws[i].us, StartUrl(start, initial)))
  {
    hide ChainFrom, SavedAfter, Possible, StartUrl;
    RunsSplit(feed, initial, saved, ws, j);
    RunsSplit(feed, initial, saved, ws[..j], i);
    assert ws[..j][..i] == ws[..i] && ws[..j][i..] == ws[i..j];
    if i < j {
      assert ws[i..j][0] == ws[i];
    }
  }

  /** The delta token moves only when a walk finishes. */
  lemma DeltaMovesAtTheEnd(feed: Feed, initial: string, saved: Saved, ws: seq<Run>, j: nat)
    requires Runs(feed, initial, saved, ws) && j < |ws|
    ensures Runs(feed, initial, saved, ws[..j]) && Runs(feed, initial, saved, ws[..j + 1])
    ensures Final(feed, initial, saved, ws[..j + 1]).delta != Final(feed, initial, saved, ws[..j]).delta ==>
              ws[j].ending.Finished?
  {
    Segment(feed, initial, saved, ws, j, j + 1);
    assert ws[j..j + 1][1..] == [] && ws[j..j + 1][0] == ws[j];
  }

  /** A walk starts at its resume token, else its delta token, else initial; empty tokens do not count. */
  predicate StartsAt(saved: Saved, initial: string, url: string) {
    if saved.resume.Some? && saved.resume.value != "" then url == saved.resume.value
    else if saved.delta.Some? && saved.delta.value != "" then url == saved.delta.value
    else url == initial
  }

  lemma StartUrlExactly(saved: Saved, initial: string, url: string)
    ensures StartUrl(saved, initial) == url <==> StartsAt(saved, initial, url)
  {
  }

  /**
    Where the walk after walk j starts: at the deltaLink of a finished one, at the next link of a cut
    one, and where it started itself if it died.
  */
  lemma NextWalkStarts(feed: Feed, initial: string, saved: Saved, ws: seq<Run>, j: nat)
    requires Runs(feed, initial, saved, ws) && j + 1 < |ws|
    ensures ws[j].us != [] && ws[j + 1].us != [] && feed(ws[j].us[|ws[j].us| - 1]).Some?
    ensures ws[j].ending.Finished? ==>
              var d := feed(ws[j].us[|ws[j].us| - 1]).value.deltaLink;
              d.Some? && ws[j + 1].us[0] == if d.value != "" then d.value else initial
    ensures ws[j].ending.Cut? ==>
              var n := ws[j].ending.pages;
              n < |ws[j].us| && (ws[j].us[n] != "" ==> ws[j + 1].us[0] == ws[j].us[n])
    ensures ws[j].ending.Died? ==> ws[j + 1].us[0] == ws[j].us[0]
  {
    Segment(feed, initial, saved, ws, j, j + 2);
    var start := Final(feed, initial, saved, ws[..j]);
    var pair := ws[j..j + 2];
    assert pair[0] == ws[j] && pair[1..][0] == ws[j + 1];
  }

  /** Where the first walk starts. */
  lemma FirstWalkStarts(feed: Feed, initial: string, saved: Saved, ws: seq<Run>)
    requires Runs(feed, initial, saved, ws) && ws != []
    ensures ws[0].us != [] && StartsAt(saved, initial, ws[0].us[0])
  {
  }

  ghost predicate NoneFinishes(ws: seq<Run>, i: nat, j: nat)
    requires j <= |ws|
  {
    forall k :: i <= k < j ==> !ws[k].ending.Finished?
  }

  /**
    In any sequence of walks, however many of them finish: when walk j finishes and none of walks i
    to j - 1 did, every item of the chain from where walk i started has been handed over by walks i
    to j, and the tokens are those of that chain's end.
  */
  lemma EveryFinishIsCovered(feed: Feed, initial: string, saved: Saved, ws: seq<Run>, i: nat, j: nat)
    requires Runs(feed, initial, saved, ws) && i <= j < |ws|
    requires ws[j].ending.Finished? && NoneFinishes(ws, i, j) && LinksNonEmpty(feed, ws[i].us)
    ensures Runs(feed, initial, saved, ws[..i]) && Runs(feed, initial, saved, ws[..j + 1])
    ensures var start := Final(feed, initial, saved, ws[..i]);
      && ChainFrom(feed, ws[i].us, StartUrl(start, initial))
      && Runs(feed, initial, start, ws[i..j + 1])
      && (forall x :: x in Items(feed, ws[i].us) ==> x in AllHanded(feed, initial, start, ws[i..j + 1]))
      && Final(feed, initial, saved, ws[..j + 1]) == Saved(DeltaLink(feed, ws[i].us), None)
  {
    hide Runs, Final, AllHanded, ChainFrom, StartUrl, Items, LinksNonEmpty;
    Segment(feed, initial, saved, ws, i, j + 1);
    CrashTolerantCoverage(feed, initial, Final(feed, initial, saved, ws[..i]), ws[i].us, ws[i..j + 1]);
  }

  /**
    At every point of any sequence of walks: if none of walks i to j - 1 finished, the resume token
    is the one walk i found, or the next link of a page up to which walks i to j - 1 handed over
    every item.
  */
  lemma EveryResumeIsSafe(feed: Feed, initial: string, saved: Saved, ws: seq<Run>, i: nat, j: nat)
    requires Runs(feed, initial, saved, ws) && i < j <= |ws|
    requires NoneFinishes(ws, i, j) && LinksNonEmpty(feed, ws[i].us)
    ensures Runs(feed, initial, saved, ws[..i]) && Runs(feed, initial, saved, ws[..j])
    ensures var start, resume := Final(feed, initial, saved, ws[..i]), Final(feed, initial, saved, ws[..j]).resume;
      && Runs(feed, initial, start, ws[i..j])
      && (|| resume == start.resume
          || ResumesAfter(feed, ws[i].us, resume, AllHanded(feed, initial, start, ws[i..j])))
  {
    hide Runs, Final, AllHanded, ChainFrom, StartUrl, Items, LinksNonEmpty, ResumesAfter;
    Segment(feed, initial, saved, ws, i, j);
    ResumeTokenIsSafe(feed, initial, Final(feed, initial, saved, ws[..i]), ws[i].us, ws[i..j]);
  }
}
