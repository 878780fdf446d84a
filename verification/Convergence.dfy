/**
  Eventual consistency with a full-enumeration source (filesystem or blob container).

  The source is a map from item to bytes that changes under the jobs.  Processors and the walker
  interleave freely; what is assumed is listed in `Permitted`: no send is lost, contents and
  overrides do not change in the middle of a delivery, and contents never return to a hash the
  item had before.
*/
module Convergence {
  import opened Base
  import opened Protocol
  import opened Safety
  import opened Results
  import opened Pipeline

  /** The fixed part of a deployment: its sync row, hash, and deterministic extraction and classification. */
  datatype Library = Library(
    home: nat,
    hash: Bytes -> string,
    mime: string -> string,
    extract: (Bytes, string) -> Extracted,
    classify: string -> Result<Classification, string>)

  /** The protocol next to its source; `seen` holds every hash an item ever had. */
  datatype Live = Live(s: State, src: map<string, Bytes>, seen: map<string, set<string>>)

  datatype Happening = Do(e: Event) | Change(item: string, content: Option<Bytes>)

  function Seen(w: Live, item: string): set<string> {
    if item in w.seen then w.seen[item] else {}
  }

  /** What a retrieval sees when nothing fails transiently. */
  function SourceIo(lib: Library, src: map<string, Bytes>, item: string): Io {
    if item in src
    then Io(Ok(Some(lib.hash(src[item]))), Ok(src[item]), lib.extract, lib.classify)
    else Io(Err("missing"), Err("missing"), lib.extract, lib.classify)
  }

  /** An attempt may fail at any time; otherwise its outcome is what the current source determines. */
  predicate Truth(lib: Library, w: Live, m: nat, o: Outcome)
    requires m < |w.s.mail|
  {
    var msg := w.s.mail[m].message;
    o.Failure? || o == Judge(msg, SourceIo(lib, w.src, msg.driveItemId))
  }

  /** A full-enumeration walker's candidate: built from bytes the item has, or had when they were read. */
  predicate Listed(lib: Library, w: Live, origin: Origin, c: Candidate) {
    && origin.syncStateId == lib.home
    && c.contentHash in Seen(w, c.driveItemId)
    && c.mimeType == Some(lib.mime(c.driveItemId))
  }

  /** The candidate was built from the bytes the item has now. */
  predicate UpToDate(lib: Library, w: Live, c: Candidate) {
    c.driveItemId in w.src && c.contentHash == lib.hash(w.src[c.driveItemId])
  }

  /** The candidate a full-enumeration walker builds from the source as it is. */
  predicate Enumerated(lib: Library, w: Live, origin: Origin, c: Candidate) {
    origin.syncStateId == lib.home && UpToDate(lib, w, c) && c.mimeType == Some(lib.mime(c.driveItemId))
  }

  /** No delivery of this item is in progress; other items may be in the middle of theirs. */
  ghost predicate ItemAtRest(s: State, item: string) {
    forall m :: 0 <= m < |s.mail| && s.mail[m].message.driveItemId == item ==> !Held(s.mail[m].phase)
  }

  ghost predicate RowAtRest(s: State, r: nat) {
    forall m :: 0 <= m < |s.mail| && RowOf(s, m) == r ==> !Held(s.mail[m].phase)
  }

  ghost predicate Permitted(lib: Library, w: Live, x: Happening) {
    match x
    case Change(item, content) =>
      ItemAtRest(w.s, item) && (content.Some? ==> lib.hash(content.value) !in Seen(w, item))
    case Do(e) =>
      && Enabled(w.s, e)
      && !e.LoseSend?
      && (e.SetOverride? ==> RowAtRest(w.s, e.r))
      && (e.Look? ==> Listed(lib, w, e.origin, e.candidate))
      && (e.Decide? ==> Truth(lib, w, e.m, e.outcome))
  }

  function Happen(lib: Library, w: Live, x: Happening): Live
    requires x.Do? ==> Enabled(w.s, x.e)
  {
    match x
    case Do(e) => w.(s := Apply(w.s, e))
    case Change(item, None) => w.(src := w.src - {item})
    case Change(item, Some(content)) =>
      w.(src := w.src[item := content], seen := w.seen[item := Seen(w, item) + {lib.hash(content)}])
  }

  // ---- the invariant ----

  predicate Current(lib: Library, w: Live, d: Document) {
    && d.syncStateId == lib.home
    && d.driveItemId in w.src
    && d.contentHash == Some(lib.hash(w.src[d.driveItemId]))
  }

  /** The row is settled for these bytes: human label, unsupported type, or their own classification. */
  predicate Good(lib: Library, d: Document, bytes: Bytes) {
    || d.classificationOverride.Some?
    || match lib.extract(bytes, lib.mime(d.driveItemId)) {
         case NoExtractor(_) => d.status != Completed
         case Unreadable(_) => false
         case Text(text) =>
           var c := lib.classify(text);
           c.Ok? && CarriesResult(d, c.value)
       }
  }

  predicate Carries(s: State, m: nat, r: nat, hash: string) {
    && m < |s.mail| && RowOf(s, m) == r
    && s.mail[m].message.contentHash == hash
    && Open(s.mail[m].phase)
  }

  /** Work for exactly this content is still on its way. */
  ghost predicate Coming(s: State, r: nat, hash: string) {
    || (exists m: nat :: Carries(s, m, r, hash))
    || (IsSending(s, r) && s.walker.message.contentHash == hash)
  }

  ghost predicate RowServed(lib: Library, w: Live, r: nat)
    requires r < |w.s.documents|
  {
    var d := w.s.documents[r];
    Current(lib, w, d) ==> Good(lib, d, w.src[d.driveItemId]) || Coming(w.s, r, lib.hash(w.src[d.driveItemId]))
  }

  predicate MessageTyped(lib: Library, msg: Message) {
    msg.syncStateId == lib.home ==> msg.mimeType == lib.mime(msg.driveItemId)
  }

  /** A held message agrees with the source and with the override column of its row. */
  predicate Truthful(lib: Library, w: Live, m: nat)
    requires m < |w.s.mail| && RowOf(w.s, m) < |w.s.documents|
  {
    var d := w.s.documents[RowOf(w.s, m)];
    var msg := w.s.mail[m].message;
    && MessageTyped(lib, msg)
    && match w.s.mail[m].phase {
         case SawOverride => d.classificationOverride.Some?
         case Loaded => d.classificationOverride.None?
         case Marked => d.classificationOverride.None?
         case Decided(o) =>
           d.classificationOverride.None? && Truth(lib, w, m, o)
         case Written(c, applied) => applied
         case _ => true
       }
  }

  predicate HashSeen(lib: Library, w: Live, syncStateId: nat, item: string, hash: string) {
    syncStateId == lib.home ==> hash in Seen(w, item)
  }

  predicate WalkerTruthful(lib: Library, w: Live) {
    match w.s.walker
    case AtRest => true
    case Chosen(origin, c, _) =>
      && origin.syncStateId == lib.home
      && c.mimeType == Some(lib.mime(c.driveItemId))
      && c.contentHash in Seen(w, c.driveItemId)
    case Sending(msg) => MessageTyped(lib, msg)
  }

  ghost predicate Serving(lib: Library, w: Live) {
    && Safe(w.s)
    && (forall r :: 0 <= r < |w.s.books| ==> !w.s.books[r].gap)
    && WalkerTruthful(lib, w)
    && (forall m :: 0 <= m < |w.s.mail| ==> Truthful(lib, w, m))
    && (forall r :: 0 <= r < |w.s.documents| ==> RowServed(lib, w, r))
    && (forall r :: 0 <= r < |w.s.documents| && w.s.documents[r].contentHash.Some? ==>
          HashSeen(lib, w, w.s.documents[r].syncStateId, w.s.documents[r].driveItemId,
                   w.s.documents[r].contentHash.value))
    && SourceSeen(lib, w)
  }

  ghost predicate SourceSeen(lib: Library, w: Live) {
    forall item :: item in w.src ==> lib.hash(w.src[item]) in Seen(w, item)
  }

  // ---- every permitted happening keeps the invariant ----

  lemma MailStepTruthful(lib: Library, w: Live, e: Event, k: nat)
    requires Serving(lib, w) && Permitted(lib, w, Do(e)) && MailOf(e) == Some(k) && k < |w.s.mail|
    requires |Apply(w.s, e).mail| == |w.s.mail| && RowOf(Apply(w.s, e), k) < |Apply(w.s, e).documents|
    ensures Truthful(lib, Happen(lib, w, Do(e)), k)
    ensures RowOf(w.s, k) < |Apply(w.s, e).books| && !Apply(w.s, e).books[RowOf(w.s, k)].gap
  {
    assert Truthful(lib, w, k);
    match e
    case Upsert(_) => UpsertHits(w.s, k);
    case _ =>
  }

  /** A processor event either leaves its row as well served as before, or settles it. */
  lemma MailStepServes(lib: Library, w: Live, e: Event, k: nat)
    requires Serving(lib, w) && Permitted(lib, w, Do(e)) && MailOf(e) == Some(k) && k < |w.s.mail|
    requires SameShape(w.s, Apply(w.s, e)) && RowOf(w.s, k) < |w.s.documents|
    ensures var r := RowOf(w.s, k); var d, d' := w.s.documents[r], Apply(w.s, e).documents[r];
      && d'.contentHash == d.contentHash
      && (Current(lib, w, d) ==>
            var bytes := w.src[d.driveItemId];
            && (Good(lib, d, bytes) ==> Good(lib, d', bytes))
            && (w.s.mail[k].message.contentHash == lib.hash(bytes) && Open(w.s.mail[k].phase) ==>
                  Good(lib, d', bytes) || Open(Apply(w.s, e).mail[k].phase)))
  {
    assert Truthful(lib, w, k);
    match e
    case Upsert(_) => UpsertHits(w.s, k);
    case _ =>
  }

  lemma ComingKept(s: State, t: State, r: nat, hash: string, m: nat)
    requires Carries(s, m, r, hash) && m < |t.mail|
    requires t.mail[m].message == s.mail[m].message && Open(t.mail[m].phase)
    ensures Coming(t, r, hash)
  {
    assert Carries(t, m, r, hash);
  }

  lemma MailStepRowServed(lib: Library, w: Live, e: Event, k: nat, r: nat)
    requires Serving(lib, w) && Permitted(lib, w, Do(e)) && MailOf(e) == Some(k)
    requires r < |w.s.documents| && |Apply(w.s, e).documents| == |w.s.documents|
    ensures RowServed(lib, Happen(lib, w, Do(e)), r)
  {
    var t := Apply(w.s, e);
    var d := w.s.documents[r];
    MailStepFrame(w.s, e, k);
    MailStepServes(lib, w, e, k);
    assert RowServed(lib, w, r);
    if Current(lib, w, d) && Coming(w.s, r, lib.hash(w.src[d.driveItemId])) {
      var hash := lib.hash(w.src[d.driveItemId]);
      if m: nat :| Carries(w.s, m, r, hash) {
        if Open(t.mail[m].phase) {
          ComingKept(w.s, t, r, hash, m);
        }
      }
    }
  }

  lemma MailStepKept(lib: Library, w: Live, e: Event, k: nat)
    requires Serving(lib, w) && Permitted(lib, w, Do(e)) && MailOf(e) == Some(k)
    ensures Serving(lib, Happen(lib, w, Do(e)))
  {
    var w' := Happen(lib, w, Do(e));
    IdentityKept(w.s, e);
    CoveredKept(w.s, e);
    MailStepFrame(w.s, e, k);
    MailStepTruthful(lib, w, e, k);
    MailStepServes(lib, w, e, k);
    forall r | 0 <= r < |w'.s.documents|
      ensures RowServed(lib, w', r)
    {
      MailStepRowServed(lib, w, e, k, r);
    }
    forall m | 0 <= m < |w'.s.mail|
      ensures Truthful(lib, w', m)
    {
      if m != k {
        MailStepOthersTruthful(lib, w, e, k, m);
      }
    }
  }

  lemma MailStepOthersTruthful(lib: Library, w: Live, e: Event, k: nat, m: nat)
    requires Serving(lib, w) && Permitted(lib, w, Do(e)) && MailOf(e) == Some(k) && m < |w.s.mail| && m != k
    ensures m < |Apply(w.s, e).mail| && RowOf(Apply(w.s, e), m) < |Apply(w.s, e).documents|
    ensures Truthful(lib, Happen(lib, w, Do(e)), m)
  {
    assert Truthful(lib, w, m);
    IdentityKept(w.s, e);
    MailStepFrame(w.s, e, k);
    ResultStep(w.s, e, RowOf(w.s, m));
  }

  /** Walker and operator steps: messages, results and the tracked gaps stay, hashes stay seen. */
  lemma OtherStepKept(lib: Library, w: Live, e: Event)
    requires Serving(lib, w) && Permitted(lib, w, Do(e)) && MailOf(e).None?
    ensures Serving(lib, Happen(lib, w, Do(e)))
  {
    var w' := Happen(lib, w, Do(e));
    IdentityKept(w.s, e);
    CoveredKept(w.s, e);
    QueueKept(w.s, e, 0);
    assert forall m :: 0 <= m < |w.s.mail| ==> w'.s.mail[m] == w.s.mail[m];
    forall r | 0 <= r < |w'.s.documents|
      ensures RowServed(lib, w', r)
    {
      OtherStepRowServed(lib, w, e, r);
    }
    forall m | 0 <= m < |w'.s.mail|
      ensures Truthful(lib, w', m)
    {
      if m < |w.s.mail| {
        assert Truthful(lib, w, m);
        ResultStep(w.s, e, RowOf(w.s, m));
      }
    }
    forall r | 0 <= r < |w'.s.documents| && w'.s.documents[r].contentHash.Some?
      ensures HashSeen(lib, w', w'.s.documents[r].syncStateId, w'.s.documents[r].driveItemId,
                       w'.s.documents[r].contentHash.value)
    {
      OtherStepHash(lib, w, e, r);
    }
    OtherStepWalker(lib, w, e);
  }

  lemma OtherStepWalker(lib: Library, w: Live, e: Event)
    requires Serving(lib, w) && Permitted(lib, w, Do(e)) && MailOf(e).None?
    ensures WalkerTruthful(lib, Happen(lib, w, Do(e)))
    ensures forall r :: 0 <= r < |Apply(w.s, e).books| ==> !Apply(w.s, e).books[r].gap
  {
  }

  lemma OtherStepHash(lib: Library, w: Live, e: Event, r: nat)
    requires Serving(lib, w) && Permitted(lib, w, Do(e)) && MailOf(e).None?
    requires r < |Apply(w.s, e).documents|
    ensures var d := Apply(w.s, e).documents[r];
      d.contentHash.Some? ==> HashSeen(lib, w, d.syncStateId, d.driveItemId, d.contentHash.value)
  {
    if r < |w.s.documents| && w.s.documents[r].contentHash.Some? {
      assert HashSeen(lib, w, w.s.documents[r].syncStateId, w.s.documents[r].driveItemId,
                      w.s.documents[r].contentHash.value);
    }
  }

  lemma OtherStepRowServed(lib: Library, w: Live, e: Event, r: nat)
    requires Serving(lib, w) && Permitted(lib, w, Do(e)) && MailOf(e).None?
    requires r < |Apply(w.s, e).documents|
    ensures RowServed(lib, Happen(lib, w, Do(e)), r)
  {
    var t := Apply(w.s, e);
    var hash := HashNow(lib, w, t.documents[r].driveItemId);
    if e.Commit? && IsSending(t, r) {
      assert t.documents[r].contentHash == Some(t.walker.message.contentHash);
    } else if e.Send? && IsSending(w.s, r) && w.s.walker.message.contentHash == hash {
      assert Current(lib, w, t.documents[r]) ==> Carries(t, |w.s.mail|, r, hash);
    } else {
      OldRowServed(lib, w, e, r, hash);
    }
  }

  function HashNow(lib: Library, w: Live, item: string): string {
    if item in w.src then lib.hash(w.src[item]) else ""
  }

  lemma OldRowServed(lib: Library, w: Live, e: Event, r: nat, hash: string)
    requires Serving(lib, w) && Permitted(lib, w, Do(e)) && MailOf(e).None?
    requires r < |Apply(w.s, e).documents| && hash == HashNow(lib, w, Apply(w.s, e).documents[r].driveItemId)
    requires !(e.Commit? && IsSending(Apply(w.s, e), r))
    requires !(e.Send? && IsSending(w.s, r) && w.s.walker.message.contentHash == hash)
    ensures RowServed(lib, Happen(lib, w, Do(e)), r)
  {
    var t := Apply(w.s, e);
    var d := t.documents[r];
    if Current(lib, w, d) {
      assert r < |w.s.documents| && RowServed(lib, w, r);
      ResultStep(w.s, e, r);
      assert w.s.documents[r].contentHash == d.contentHash;
      if m: nat :| Carries(w.s, m, r, hash) {
        QueueKept(w.s, e, r);
        ComingKept(w.s, t, r, hash, m);
      }
    }
  }

  /** New contents have a hash that no row carries yet, so no row becomes current by a change. */
  lemma ChangeKept(lib: Library, w: Live, item: string, content: Option<Bytes>)
    requires Serving(lib, w) && Permitted(lib, w, Change(item, content))
    ensures Serving(lib, Happen(lib, w, Change(item, content)))
  {
    var w' := Happen(lib, w, Change(item, content));
    forall r | 0 <= r < |w'.s.documents|
      ensures RowServed(lib, w', r)
    {
      assert RowServed(lib, w, r);
      var d := w.s.documents[r];
      assert d.contentHash.Some? ==> HashSeen(lib, w, d.syncStateId, d.driveItemId, d.contentHash.value);
    }
    forall m | 0 <= m < |w'.s.mail|
      ensures Truthful(lib, w', m)
    {
      assert Truthful(lib, w, m);
      assert w.s.mail[m].message.driveItemId == item ==> !Held(w.s.mail[m].phase);
    }
  }

  // ---- runs ----

  ghost predicate CanHappen(lib: Library, w: Live, xs: seq<Happening>)
    decreases |xs|, 0
  {
    xs == [] ||
    (CanHappen(lib, w, xs[..|xs| - 1]) && Permitted(lib, After(lib, w, xs[..|xs| - 1]), xs[|xs| - 1]))
  }

  ghost function After(lib: Library, w: Live, xs: seq<Happening>): Live
    requires CanHappen(lib, w, xs)
    decreases |xs|, 1
  {
    if xs == [] then w else Happen(lib, After(lib, w, xs[..|xs| - 1]), xs[|xs| - 1])
  }

  lemma HappeningKept(lib: Library, w: Live, x: Happening)
    requires Serving(lib, w) && Permitted(lib, w, x)
    ensures Serving(lib, Happen(lib, w, x))
  {
    match x
    case Change(item, content) => ChangeKept(lib, w, item, content);
    case Do(e) =>
      if MailOf(e).Some? {
        MailStepKept(lib, w, e, MailOf(e).value);
      } else {
        OtherStepKept(lib, w, e);
      }
  }

  lemma {:induction false} HistoryServes(lib: Library, w: Live, xs: seq<Happening>)
    requires Serving(lib, w) && CanHappen(lib, w, xs)
    ensures Serving(lib, After(lib, w, xs))
  {
    if xs != [] {
      var n := |xs| - 1;
      HistoryServes(lib, w, xs[..n]);
      HappeningKept(lib, After(lib, w, xs[..n]), xs[n]);
    }
  }

  // ---- the final sweep, one item at a time ----

  predicate IsRowOf(lib: Library, s: State, r: nat, item: string) {
    r < |s.documents| && HasKey(s.documents[r], lib.home, item)
  }

  predicate WalkerAt(lib: Library, s: State, item: string) {
    match s.walker
    case AtRest => false
    case Chosen(origin, c, _) => origin.syncStateId == lib.home && c.driveItemId == item
    case Sending(msg) => msg.syncStateId == lib.home && msg.driveItemId == item
  }

  predicate IsMailOf(lib: Library, mail: Mail, item: string) {
    mail.message.syncStateId == lib.home && mail.message.driveItemId == item
  }

  /** No work is left for the item: its messages are deleted and the walker is not at it. */
  ghost predicate ItemDrained(lib: Library, s: State, item: string) {
    && !WalkerAt(lib, s, item)
    && forall m :: 0 <= m < |s.mail| && IsMailOf(lib, s.mail[m], item) ==> s.mail[m].phase.Gone?
  }

  /**
    The item itself is not changed, reset, abandoned, or looked at with bytes read before its last
    change; anything may happen to other items.
  */
  predicate Quiet(lib: Library, w: Live, x: Happening, item: string) {
    match x
    case Change(other, _) => other != item
    case Do(e) =>
      && (e.Reset? ==> !IsRowOf(lib, w.s, e.r, item))
      && (e.Abandon? ==> !WalkerAt(lib, w.s, item))
      && (e.Look? && e.candidate.driveItemId == item ==> UpToDate(lib, w, e.candidate))
  }

  ghost predicate AllQuiet(lib: Library, w: Live, xs: seq<Happening>, item: string)
    requires CanHappen(lib, w, xs)
  {
    xs == [] ||
    (&& AllQuiet(lib, w, xs[..|xs| - 1], item)
     && Quiet(lib, After(lib, w, xs[..|xs| - 1]), xs[|xs| - 1], item))
  }

  ghost predicate Busy(s: State, r: nat) {
    || (r < |s.documents| && NeedsMail(s.documents[r].status))
    || IsSending(s, r)
    || HasMail(s, r)
  }

  /** Since the drain, the item's row has been put to work only with the current hash. */
  ghost predicate FreshWork(lib: Library, w: Live, item: string) {
    && (forall r :: 0 <= r < |w.s.documents| && IsRowOf(lib, w.s, r, item) && Busy(w.s, r) ==>
          Current(lib, w, w.s.documents[r]))
    && (w.s.walker.Chosen? && WalkerAt(lib, w.s, item) ==> UpToDate(lib, w, w.s.walker.candidate))
  }

  /** The item has been dealt with: its row is current, or the walker is just about to make it so. */
  predicate Handled(lib: Library, w: Live, item: string) {
    || (w.s.walker.Chosen? && WalkerAt(lib, w.s, item))
    || RowUpToDate(lib, w, item)
  }

  predicate RowUpToDate(lib: Library, w: Live, item: string) {
    var hit := Find(w.s.documents, lib.home, item);
    hit.Some? && Current(lib, w, w.s.documents[hit.value]) && w.s.documents[hit.value].status != Pending
  }

  lemma MailStepSweeps(lib: Library, w: Live, e: Event, k: nat, item: string)
    requires Serving(lib, w) && FreshWork(lib, w, item) && Permitted(lib, w, Do(e)) && MailOf(e) == Some(k)
    ensures FreshWork(lib, Happen(lib, w, Do(e)), item)
    ensures Handled(lib, w, item) ==> Handled(lib, Happen(lib, w, Do(e)), item)
  {
    hide Busy;
    var t := Apply(w.s, e);
    MailStepFrame(w.s, e, k);
    MailStepServes(lib, w, e, k);
    forall r | 0 <= r < |t.documents| && Busy(t, r)
      ensures Busy(w.s, r)
    {
      MailStepBusy(w.s, e, k, r);
    }
    FindSameKeys(w.s.documents, t.documents, lib.home, item);
    MailStepStatus(w.s, e, k);
  }

  lemma MailStepBusy(s: State, e: Event, k: nat, r: nat)
    requires Identity(s) && Enabled(s, e) && MailOf(e) == Some(k) && Busy(Apply(s, e), r)
    ensures Busy(s, r)
  {
    var t := Apply(s, e);
    MailStepFrame(s, e, k);
    HeldIsMail(s, e, k);
    hide Apply, Identity, Enabled;
    if HasMail(t, r) {
      var m :| 0 <= m < |t.mail| && RowOf(t, m) == r && !t.mail[m].phase.Gone?;
      assert RowOf(s, m) == r && (m == k || !s.mail[m].phase.Gone?);
    }
  }

  lemma HeldIsMail(s: State, e: Event, k: nat)
    requires Enabled(s, e) && MailOf(e) == Some(k) && k < |s.mail|
    ensures HasMail(s, RowOf(s, k))
  {
    hide Apply;
    assert !s.mail[k].phase.Gone?;
  }

  /** Processors never write `pending`. */
  lemma MailStepStatus(s: State, e: Event, k: nat)
    requires Identity(s) && Enabled(s, e) && MailOf(e) == Some(k)
    ensures k < |s.mail| && RowOf(s, k) < |s.documents| == |Apply(s, e).documents|
    ensures var d, d' := s.documents[RowOf(s, k)], Apply(s, e).documents[RowOf(s, k)];
      d'.status == Pending ==> d.status == Pending
  {
    match e
    case Upsert(_) => UpsertHits(s, k);
    case _ =>
  }

  lemma OtherStepSweeps(lib: Library, w: Live, e: Event, item: string)
    requires Serving(lib, w) && FreshWork(lib, w, item) && Permitted(lib, w, Do(e))
    requires MailOf(e).None? && Quiet(lib, w, Do(e), item)
    ensures FreshWork(lib, Happen(lib, w, Do(e)), item)
  {
    var w' := Happen(lib, w, Do(e));
    forall r | 0 <= r < |w'.s.documents| && IsRowOf(lib, w'.s, r, item) && Busy(w'.s, r)
      ensures Current(lib, w', w'.s.documents[r])
    {
      OtherStepFresh(lib, w, e, item, r);
    }
  }

  lemma OtherStepFresh(lib: Library, w: Live, e: Event, item: string, r: nat)
    requires Serving(lib, w) && FreshWork(lib, w, item) && Permitted(lib, w, Do(e))
    requires MailOf(e).None? && Quiet(lib, w, Do(e), item)
    requires IsRowOf(lib, Apply(w.s, e), r, item) && Busy(Apply(w.s, e), r)
    ensures Current(lib, w, Apply(w.s, e).documents[r])
  {
    var t := Apply(w.s, e);
    if !(e.Commit? && IsSending(t, r)) {
      if HasMail(t, r) {
        var m :| 0 <= m < |t.mail| && RowOf(t, m) == r && !t.mail[m].phase.Gone?;
        if m < |w.s.mail| {
          QueueKept(w.s, e, r);
          assert RowOf(w.s, m) == r && !w.s.mail[m].phase.Gone?;
        } else {
          assert IsSending(w.s, r);
        }
      }
      assert Busy(w.s, r);
    }
  }

  lemma OtherStepHandles(lib: Library, w: Live, e: Event, item: string)
    requires Serving(lib, w) && FreshWork(lib, w, item) && Permitted(lib, w, Do(e))
    requires MailOf(e).None? && Quiet(lib, w, Do(e), item)
    requires Handled(lib, w, item) || (e.Look? && e.candidate.driveItemId == item)
    ensures Handled(lib, Happen(lib, w, Do(e)), item)
  {
    var w' := Happen(lib, w, Do(e));
    if e.Commit? {
      CommitHandles(lib, w, item);
    } else {
      FindSameKeys(w.s.documents, w'.s.documents, lib.home, item);
    }
  }

  lemma CommitHandles(lib: Library, w: Live, item: string)
    requires Serving(lib, w) && FreshWork(lib, w, item) && Enabled(w.s, Commit) && Handled(lib, w, item)
    ensures RowUpToDate(lib, w.(s := CommitRow(w.s)), item)
  {
    var t := CommitRow(w.s);
    CommitKeepsIdentity(w.s);
    var r := t.walker.message.documentId;
    FindIsUnique(t.documents, r);
    if !WalkerAt(lib, w.s, item) {
      var hit := Find(w.s.documents, lib.home, item);
      FindIsUnique(t.documents, hit.value);
    }
  }

  predicate Looks(x: Happening, item: string) {
    x.Do? && x.e.Look? && x.e.candidate.driveItemId == item
  }

  ghost predicate LooksAt(xs: seq<Happening>, item: string) {
    exists i :: 0 <= i < |xs| && Looks(xs[i], item)
  }

  lemma LooksAtLast(xs: seq<Happening>, item: string)
    requires xs != [] && LooksAt(xs, item)
    ensures LooksAt(xs[..|xs| - 1], item) || Looks(xs[|xs| - 1], item)
  {
    var i :| 0 <= i < |xs| && Looks(xs[i], item);
    assert i < |xs| - 1 ==> xs[..|xs| - 1][i] == xs[i];
  }

  lemma SweepOnce(lib: Library, w: Live, x: Happening, item: string)
    requires Serving(lib, w) && FreshWork(lib, w, item) && Permitted(lib, w, x) && Quiet(lib, w, x, item)
    ensures Serving(lib, Happen(lib, w, x)) && FreshWork(lib, Happen(lib, w, x), item)
    ensures item in w.src ==> item in Happen(lib, w, x).src && Happen(lib, w, x).src[item] == w.src[item]
    ensures Handled(lib, w, item) || Looks(x, item) ==> Handled(lib, Happen(lib, w, x), item)
  {
    HappeningKept(lib, w, x);
    hide Serving;
    match x
    case Change(_, _) =>
    case Do(e) =>
      if MailOf(e).Some? {
        MailStepSweeps(lib, w, e, MailOf(e).value, item);
      } else {
        OtherStepSweeps(lib, w, e, item);
        if Handled(lib, w, item) || Looks(x, item) {
          OtherStepHandles(lib, w, e, item);
        }
      }
  }

  /** An item the sweep has looked at is handled, and only fresh work is left for it. */
  lemma {:induction false} SweepHandles(lib: Library, w: Live, xs: seq<Happening>, item: string)
    requires Serving(lib, w) && FreshWork(lib, w, item) && item in w.src
    requires CanHappen(lib, w, xs) && AllQuiet(lib, w, xs, item)
    ensures Serving(lib, After(lib, w, xs)) && FreshWork(lib, After(lib, w, xs), item)
    ensures item in After(lib, w, xs).src && After(lib, w, xs).src[item] == w.src[item]
    ensures LooksAt(xs, item) ==> Handled(lib, After(lib, w, xs), item)
  {
    hide Serving, FreshWork, Permitted, Happen, Handled, Quiet;
    if xs != [] {
      var n := |xs| - 1;
      var front := xs[..n];
      SweepHandles(lib, w, front, item);
      SweepOnce(lib, After(lib, w, front), xs[n], item);
      if LooksAt(xs, item) {
        LooksAtLast(xs, item);
      }
    }
  }

  /** A drained item has a row that waits for nothing. */
  lemma DrainedMeansFresh(lib: Library, w: Live, item: string)
    requires Serving(lib, w) && ItemDrained(lib, w.s, item)
    ensures FreshWork(lib, w, item)
    ensures forall r :: 0 <= r < |w.s.documents| && IsRowOf(lib, w.s, r, item) ==> !Busy(w.s, r)
  {
    forall r | 0 <= r < |w.s.documents| && IsRowOf(lib, w.s, r, item)
      ensures !Busy(w.s, r)
    {
      DrainedRowRests(lib, w, item, r);
    }
  }

  lemma DrainedRowRests(lib: Library, w: Live, item: string, r: nat)
    requires Serving(lib, w) && ItemDrained(lib, w.s, item) && IsRowOf(lib, w.s, r, item)
    ensures !Busy(w.s, r)
  {
    forall m | 0 <= m < |w.s.mail| && RowOf(w.s, m) == r
      ensures w.s.mail[m].phase.Gone?
    {
      assert Names(w.s, w.s.mail[m].message);
      assert IsMailOf(lib, w.s.mail[m], item);
    }
  }

  /**
    The row of item ends current and at rest: with a human label, skipped because its type has no
    extractor, or with the classification of the bytes the item has now.
  */
  ghost predicate Converged(lib: Library, w: Live, item: string)
    requires item in w.src
  {
    var hit := Find(w.s.documents, lib.home, item);
    && hit.Some?
    && var d := w.s.documents[hit.value];
       && Current(lib, w, d)
       && (d.status == Completed || d.status == Skipped)
       && (d.classificationOverride.None? ==>
             match lib.extract(w.src[item], lib.mime(item)) {
               case NoExtractor(_) => d.status == Skipped
               case Unreadable(_) => false
               case Text(text) => var c := lib.classify(text); c.Ok? && CarriesResult(d, c.value)
             })
  }

  lemma HandledAndDrained(lib: Library, w: Live, item: string)
    requires Serving(lib, w) && ItemDrained(lib, w.s, item) && Handled(lib, w, item) && item in w.src
    ensures Converged(lib, w, item)
  {
    DrainedMeansFresh(lib, w, item);
    var r := Find(w.s.documents, lib.home, item).value;
    assert IsRowOf(lib, w.s, r, item) && !Busy(w.s, r);
    assert RowServed(lib, w, r);
    RestIsNotComing(w.s, r, lib.hash(w.src[item]));
  }

  lemma RestIsNotComing(s: State, r: nat, hash: string)
    requires !Busy(s, r)
    ensures !Coming(s, r, hash)
  {
    assert !HasMail(s, r);
  }

  /**
    Drain an item's messages, look at it once more, drain again: whatever happened before and
    whatever happens to other items, the item ends with a row for its current bytes.  `history` is
    any permitted past; `sweep` mixes walks with deliveries in any order.
  */
  lemma ItemConverges(lib: Library, start: Live, history: seq<Happening>, sweep: seq<Happening>, item: string)
    requires start == Live(INITIAL, map[], map[])
    requires CanHappen(lib, start, history) && item in After(lib, start, history).src
    requires ItemDrained(lib, After(lib, start, history).s, item)
    requires CanHappen(lib, After(lib, start, history), sweep) && LooksAt(sweep, item)
    requires AllQuiet(lib, After(lib, start, history), sweep, item)
    requires ItemDrained(lib, After(lib, After(lib, start, history), sweep).s, item)
    ensures var w, v := After(lib, start, history), After(lib, After(lib, start, history), sweep);
      item in v.src && v.src[item] == w.src[item] && Converged(lib, v, item)
  {
    hide Handled, FreshWork, ItemDrained, Converged, AllQuiet, CanHappen, After, LooksAt;
    NothingYet(lib, start);
    HistoryServes(lib, start, history);
    hide Serving;
    var w := After(lib, start, history);
    DrainedMeansFresh(lib, w, item);
    SweepHandles(lib, w, sweep, item);
    HandledAndDrained(lib, After(lib, w, sweep), item);
  }

  lemma NothingYet(lib: Library, start: Live)
    requires start == Live(INITIAL, map[], map[])
    ensures Serving(lib, start)
  {
  }

  /** No work is left at all. */
  ghost predicate Drained(s: State) {
    s.walker.AtRest? && forall m :: 0 <= m < |s.mail| ==> s.mail[m].phase.Gone?
  }

  /** The same for the whole source: drain everything, walk everything, drain everything. */
  lemma Converges(lib: Library, start: Live, history: seq<Happening>, sweep: seq<Happening>)
    requires start == Live(INITIAL, map[], map[])
    requires CanHappen(lib, start, history) && Drained(After(lib, start, history).s)
    requires CanHappen(lib, After(lib, start, history), sweep)
    requires forall item :: item in After(lib, start, history).src ==>
               LooksAt(sweep, item) && AllQuiet(lib, After(lib, start, history), sweep, item)
    requires Drained(After(lib, After(lib, start, history), sweep).s)
    ensures var w, v := After(lib, start, history), After(lib, After(lib, start, history), sweep);
      && (forall item :: item in w.src ==>
            item in v.src && v.src[item] == w.src[item] && Converged(lib, v, item))
      && ((forall x :: x in sweep ==> x.Do?) ==> v.src == w.src)
  {
    hide AllQuiet, CanHappen, After, LooksAt, Converged;
    var w := After(lib, start, history);
    forall item | item in w.src
      ensures var v := After(lib, w, sweep); item in v.src && v.src[item] == w.src[item] && Converged(lib, v, item)
    {
      ItemConverges(lib, start, history, sweep, item);
    }
    if forall x :: x in sweep ==> x.Do? {
      SourceStays(lib, w, sweep);
    }
  }

  lemma {:induction false} SourceStays(lib: Library, w: Live, xs: seq<Happening>)
    requires CanHappen(lib, w, xs) && forall x :: x in xs ==> x.Do?
    ensures After(lib, w, xs).src == w.src
  {
    hide Apply, Permitted;
    if xs != [] {
      assert xs[|xs| - 1] in xs;
      SourceStays(lib, w, xs[..|xs| - 1]);
    }
  }
}
