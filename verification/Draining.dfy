/**
  The convergence theorem's hypotheses can be met: a walk that returns normally is a sweep, and
  where nothing fails for good there is a way to drain the queue.
*/
module Draining {
  import opened Base
  import opened Protocol
  import opened Safety
  import opened Interleaving
  import opened Results
  import opened Redelivery
  import opened Pipeline
  import opened Enqueuers
  import opened Enumeration
  import opened Convergence
  import opened FullWalk

  function Happenings(es: seq<Event>): seq<Happening> {
    seq(|es|, i requires 0 <= i < |es| => Do(es[i]))
  }

  // ---- a completed walk looks at all it lists ----

  lemma {:induction false} LookedIn(es: seq<Event>, c: Candidate)
    requires c in Looked(es)
    ensures LooksAt(Happenings(es), c.driveItemId)
  {
    var n := |es| - 1;
    if es[n].Look? && es[n].candidate == c {
      assert Looks(Happenings(es)[n], c.driveItemId);
    } else {
      LookedIn(es[..n], c);
      var i :| 0 <= i < n && Looks(Happenings(es[..n])[i], c.driveItemId);
      assert Looks(Happenings(es)[i], c.driveItemId);
    }
  }

  lemma {:induction false} OwnLooks(es: seq<Event>, p: Process, c: Candidate)
    requires c in Looked(Own(es, p))
    ensures c in Looked(es)
  {
    var n := |es| - 1;
    if c !in Looked(Own(es[..n], p)) {
      assert Belongs(es[n], p);
      assert Own(es, p)[..|Own(es, p)| - 1] == Own(es[..n], p);
    } else {
      OwnLooks(es[..n], p, c);
    }
  }

  lemma {:induction false} ListedIsCandidate(listing: seq<Option<Candidate>>, c: Candidate)
    requires Some(c) in listing
    ensures c in Candidates(listing)
  {
    var n := |listing| - 1;
    if listing[n] != Some(c) {
      assert Some(c) in listing[..n];
      ListedIsCandidate(listing[..n], c);
    }
  }

  /** Whatever ran between the steps of a walk that got to its end, the whole is a sweep over its listing. */
  lemma CompletedWalkSweeps(before: State, after: State, es: seq<Event>, listing: seq<Option<Candidate>>)
    requires Swept(before, after, es, listing)
    ensures forall c :: Some(c) in listing ==> LooksAt(Happenings(es), c.driveItemId)
  {
    forall c | Some(c) in listing
      ensures LooksAt(Happenings(es), c.driveItemId)
    {
      ListedIsCandidate(listing, c);
      OwnLooks(es, TheWalker, c);
      LookedIn(es, c);
    }
  }

  // ---- runs in which nothing is lost, changed or decided by the operator ----

  /** An event of a walk over the present source, or of a delivery that meets no transient failure. */
  predicate Plain(lib: Library, w: Live, e: Event) {
    match e
    case Look(origin, c) => Enumerated(lib, w, origin, c)
    case Decide(m, o) => m < |w.s.mail| && o == Verdicts(lib, w, m)
    case LoseSend => false
    case Abandon => false
    case SetOverride(_, _) => false
    case Reset(_) => false
    case _ => true
  }

  /** The outcome message m has on the present source. */
  function Verdicts(lib: Library, w: Live, m: nat): Outcome
    requires m < |w.s.mail|
  {
    Judge(w.s.mail[m].message, SourceIo(lib, w.src, w.s.mail[m].message.driveItemId))
  }

  ghost predicate AllPlain(lib: Library, w: Live, es: seq<Event>) {
    forall i :: 0 <= i < |es| ==> Plain(lib, w, es[i])
  }

  /** Messages never change, and a deleted one stays deleted. */
  lemma {:induction false} MessagesStay(s: State, es: seq<Event>)
    requires Safe(s) && CanRun(s, es)
    ensures |s.mail| <= |Exec(s, es).mail|
    ensures forall m :: 0 <= m < |s.mail| ==>
              && Exec(s, es).mail[m].message == s.mail[m].message
              && (s.mail[m].phase.Gone? ==> Exec(s, es).mail[m].phase.Gone?)
  {
    hide Apply;
    if es != [] {
      var n := |es| - 1;
      MessagesStay(s, es[..n]);
      RunIsSafe(s, es[..n]);
      MessagesStayOnce(Exec(s, es[..n]), es[n]);
    }
  }

  lemma MessagesStayOnce(s: State, e: Event)
    requires Identity(s) && Enabled(s, e)
    ensures |s.mail| <= |Apply(s, e).mail|
    ensures forall m :: 0 <= m < |s.mail| ==>
              && Apply(s, e).mail[m].message == s.mail[m].message
              && (s.mail[m].phase.Gone? ==> Apply(s, e).mail[m].phase.Gone?)
  {
    if MailOf(e).Some? {
      MailStepFrame(s, e, MailOf(e).value);
    } else {
      QueueKept(s, e, 0);
    }
  }

  /** A plain run is permitted, and it is part of a sweep. */
  lemma {:induction false} PlainRunHappens(lib: Library, w: Live, es: seq<Event>)
    requires Safe(w.s) && CanRun(w.s, es) && AllPlain(lib, w, es) && SourceSeen(lib, w)
    ensures CanHappen(lib, w, Happenings(es)) && After(lib, w, Happenings(es)) == w.(s := Exec(w.s, es))
    ensures forall item :: AllQuiet(lib, w, Happenings(es), item)
  {
    hide Apply, Safe, Judge, Enabled;
    if es != [] {
      var n := |es| - 1;
      PlainRunHappens(lib, w, es[..n]);
      assert Happenings(es)[..n] == Happenings(es[..n]);
      MessagesStay(w.s, es[..n]);
      assert Plain(lib, w, es[n]);
    }
  }

  lemma {:induction false} HappenConcat(lib: Library, w: Live, xs: seq<Happening>, ys: seq<Happening>)
    requires CanHappen(lib, w, xs) && CanHappen(lib, After(lib, w, xs), ys)
    ensures CanHappen(lib, w, xs + ys) && After(lib, w, xs + ys) == After(lib, After(lib, w, xs), ys)
  {
    hide Permitted, Happen;
    if ys == [] {
      assert xs + ys == xs;
    } else {
      var n := |ys| - 1;
      HappenConcat(lib, w, xs, ys[..n]);
      assert (xs + ys)[..|xs| + n] == xs + ys[..n] && (xs + ys)[|xs| + n] == ys[n];
    }
  }

  lemma {:induction false} QuietConcat(
    lib: Library, w: Live, xs: seq<Happening>, ys: seq<Happening>, item: string)
    requires CanHappen(lib, w, xs) && AllQuiet(lib, w, xs, item)
    requires CanHappen(lib, After(lib, w, xs), ys) && AllQuiet(lib, After(lib, w, xs), ys, item)
    ensures CanHappen(lib, w, xs + ys) && AllQuiet(lib, w, xs + ys, item)
  {
    hide Permitted, Happen, Quiet;
    HappenConcat(lib, w, xs, ys);
    if ys == [] {
      assert xs + ys == xs;
    } else {
      var n := |ys| - 1;
      QuietConcat(lib, w, xs, ys[..n], item);
      HappenConcat(lib, w, xs, ys[..n]);
      assert (xs + ys)[..|xs| + n] == xs + ys[..n] && (xs + ys)[|xs| + n] == ys[n];
    }
  }

  // ---- draining ----

  /** The items in question. */
  type Choice = string -> bool

  /** The walker is between items and no message of a chosen item is left. */
  ghost predicate ChosenDrained(s: State, only: Choice) {
    s.walker.AtRest? &&
    forall m :: 0 <= m < |s.mail| && only(s.mail[m].message.driveItemId) ==> s.mail[m].phase.Gone?
  }

  /** Delivering message m to the end is possible: its row is overridden or its outcome is no failure. */
  predicate Deliverable(lib: Library, w: Live, m: nat)
    requires m < |w.s.mail| && RowOf(w.s, m) < |w.s.documents|
  {
    w.s.mail[m].phase.Gone? || Overridden(w.s, m) || !Verdicts(lib, w, m).Failure?
  }

  ghost predicate AllDeliverable(lib: Library, w: Live, only: Choice) {
    forall m :: 0 <= m < |w.s.mail| && only(w.s.mail[m].message.driveItemId) ==>
      RowOf(w.s, m) < |w.s.documents| && Deliverable(lib, w, m)
  }

  lemma DeliverableKept(lib: Library, w: Live, es: seq<Event>, m: nat)
    requires Safe(w.s) && CanRun(w.s, es) && AllPlain(lib, w, es)
    requires m < |w.s.mail| && Deliverable(lib, w, m)
    ensures m < |Exec(w.s, es).mail| && RowOf(Exec(w.s, es), m) < |Exec(w.s, es).documents|
    ensures Deliverable(lib, w.(s := Exec(w.s, es)), m)
  {
    hide CanRun, Exec, Covered, Judge;
    MessagesStay(w.s, es);
    assert forall i :: 0 <= i < |es| ==> !es[i].SetOverride? by {
      assert forall i :: 0 <= i < |es| ==> Plain(lib, w, es[i]);
    }
    OverrideImmunity(w.s, es, RowOf(w.s, m));
  }

  /** Bring message m from wherever its last holder left it to its deletion. */
  lemma EmptyOne(lib: Library, w: Live, m: nat) returns (es: seq<Event>)
    requires Safe(w.s) && w.s.walker.AtRest? && m < |w.s.mail| && Deliverable(lib, w, m)
    ensures CanRun(w.s, es) && AllPlain(lib, w, es)
    ensures var t := Exec(w.s, es); |t.mail| == |w.s.mail| && t.mail[m].phase.Gone? && t.walker.AtRest?
  {
    hide CanRun, Exec, Covered, Judge;
    if w.s.mail[m].phase.Gone? {
      es := [];
      NoRun(w.s);
    } else if w.s.mail[m].phase.Ready? {
      es := DeliverOne(lib, w, m);
    } else {
      var t := Apply(w.s, Stop(m));
      RunOfOne(w.s, Stop(m));
      RunIsSafe(w.s, [Stop(m)]);
      var rest := DeliverOne(lib, w.(s := t), m);
      RunConcat(w.s, [Stop(m)], rest);
      es := [Stop(m)] + rest;
      assert forall i :: 0 <= i < |rest| ==> Plain(lib, w.(s := t), rest[i]) && es[i + 1] == rest[i];
    }
  }

  lemma NoRun(s: State)
    ensures CanRun(s, []) && Exec(s, []) == s
  {
  }

  lemma DeliverOne(lib: Library, w: Live, m: nat) returns (es: seq<Event>)
    requires Safe(w.s) && w.s.walker.AtRest? && m < |w.s.mail| && w.s.mail[m].phase.Ready? && Deliverable(lib, w, m)
    ensures CanRun(w.s, es) && OnlyOf(es, m) && AllPlain(lib, w, es)
    ensures forall i :: 0 <= i < |es| && es[i].Decide? ==> es[i] == Decide(m, Verdicts(lib, w, m))
    ensures var t := Exec(w.s, es); |t.mail| == |w.s.mail| && t.mail[m].phase.Gone? && t.walker.AtRest?
  {
    hide CanRun, Exec, Covered, Judge;
    var o := if Overridden(w.s, m) then Skip("") else Verdicts(lib, w, m);
    es := Script(m, Overridden(w.s, m), o);
    SuccessIsARun(w.s, m, o);
    ScriptIsOwn(m, Overridden(w.s, m), o);
    OwnEventsSpare(w.s, es, m);
    DeliveriesStayMidway(w.s, es, m, o);
  }

  /** Delete the messages of the chosen items one by one. */
  lemma DrainFrom(lib: Library, w: Live, only: Choice, n: nat) returns (es: seq<Event>)
    requires Safe(w.s) && w.s.walker.AtRest? && n <= |w.s.mail| && AllDeliverable(lib, w, only)
    requires forall m :: 0 <= m < n && only(w.s.mail[m].message.driveItemId) ==> w.s.mail[m].phase.Gone?
    ensures CanRun(w.s, es) && AllPlain(lib, w, es) && ChosenDrained(Exec(w.s, es), only)
    decreases |w.s.mail| - n
  {
    hide CanRun, Exec, Covered, Judge, Deliverable, Identity;
    if n == |w.s.mail| {
      es := [];
      NoRun(w.s);
    } else if !only(w.s.mail[n].message.driveItemId) {
      es := DrainFrom(lib, w, only, n + 1);
    } else {
      var first := EmptyOne(lib, w, n);
      var v := w.(s := Exec(w.s, first));
      MessagesStay(w.s, first);
      RunIsSafe(w.s, first);
      forall m | 0 <= m < |v.s.mail| && only(v.s.mail[m].message.driveItemId)
        ensures RowOf(v.s, m) < |v.s.documents| && Deliverable(lib, v, m)
      {
        DeliverableKept(lib, w, first, m);
      }
      var rest := DrainFrom(lib, v, only, n + 1);
      RunConcat(w.s, first, rest);
      es := first + rest;
      PlainBefore(lib, w, v, rest);
    }
  }

  lemma PlainBefore(lib: Library, w: Live, v: Live, es: seq<Event>)
    requires AllPlain(lib, v, es) && v.src == w.src && |v.s.mail| == |w.s.mail|
    requires forall m :: 0 <= m < |w.s.mail| ==> v.s.mail[m].message == w.s.mail[m].message
    ensures AllPlain(lib, w, es)
  {
    forall i | 0 <= i < |es|
      ensures Plain(lib, w, es[i])
    {
      assert Plain(lib, v, es[i]);
    }
  }

  // ---- walking and draining to convergence ----

  /** Every chosen item of the source can be extracted and classified, or has no extractor. */
  ghost predicate Readable(lib: Library, src: map<string, Bytes>, only: Choice) {
    forall item :: item in src && only(item) ==>
      match lib.extract(src[item], lib.mime(item)) {
        case NoExtractor(_) => true
        case Unreadable(_) => false
        case Text(text) => lib.classify(text).Ok?
      }
  }

  predicate IsVisit(es: seq<Event>, origin: Origin, c: Candidate) {
    es == [Look(origin, c)] || es == [Look(origin, c), Commit, Send]
  }

  /** A visit as the events it consists of. */
  lemma VisitRun(s: State, origin: Origin, c: Candidate) returns (es: seq<Event>)
    requires Safe(s) && s.walker.AtRest?
    ensures IsVisit(es, origin, c) && CanRun(s, es) && Exec(s, es) == Visit(s, origin, c)
  {
    hide CanRun, Exec, Covered, CommitRow, SendMessage;
    var look := Look(origin, c);
    RunOfOne(s, look);
    es := [look];
    if !LookUp(s, origin, c).walker.AtRest? {
      RunSnoc(s, [look], Commit);
      assert CommitRow(LookUp(s, origin, c)).walker.Sending? by { CommitSends(LookUp(s, origin, c)); }
      IdentityKept(s, look);
      CommitKeepsIdentity(LookUp(s, origin, c));
      RunSnoc(s, [look] + [Commit], Send);
      es := [look] + [Commit] + [Send];
    }
  }

  lemma CommitSends(s: State)
    requires Enabled(s, Commit)
    ensures CommitRow(s).walker.Sending?
  {
  }

  /** Visiting an enumerated item leaves only messages that can be delivered. */
  lemma VisitDeliverable(lib: Library, w: Live, only: Choice, origin: Origin, c: Candidate, es: seq<Event>)
    requires Safe(w.s) && w.s.walker.AtRest? && AllDeliverable(lib, w, only) && Readable(lib, w.src, only)
    requires Enumerated(lib, w, origin, c) && only(c.driveItemId)
    requires IsVisit(es, origin, c) && CanRun(w.s, es) && Exec(w.s, es) == Visit(w.s, origin, c)
    ensures Safe(Exec(w.s, es)) && Exec(w.s, es).walker.AtRest?
    ensures AllDeliverable(lib, w.(s := Exec(w.s, es)), only)
  {
    hide CanRun, Exec, Covered, Visit, Deliverable, ShouldEnqueue, RowAt;
    RunIsSafe(w.s, es);
    VisitEffect(w.s, origin, c);
    MessagesStay(w.s, es);
    var v := w.(s := Exec(w.s, es));
    forall m | 0 <= m < |v.s.mail| && only(v.s.mail[m].message.driveItemId)
      ensures Deliverable(lib, v, m)
    {
      if m < |w.s.mail| {
        DeliverableKept(lib, w, es, m);
      } else {
        NewIsDeliverable(lib, v, only, origin, c, m);
      }
    }
  }

  lemma NewIsDeliverable(lib: Library, w: Live, only: Choice, origin: Origin, c: Candidate, m: nat)
    requires Identity(w.s) && m < |w.s.mail| && Readable(lib, w.src, only)
    requires Enumerated(lib, w, origin, c) && only(c.driveItemId)
    requires Strip(w.s.mail[m].message) == Expected(origin, c)
    ensures Deliverable(lib, w, m)
  {
    var msg := w.s.mail[m].message;
    assert msg.driveItemId == Strip(msg).driveItemId == c.driveItemId;
    assert msg.contentHash == Strip(msg).contentHash == c.contentHash;
    assert msg.mimeType == Strip(msg).mimeType == lib.mime(c.driveItemId);
  }

  lemma LooksConcat(es: seq<Event>, more: seq<Event>, item: string)
    requires LooksAt(Happenings(es), item) || LooksAt(Happenings(more), item)
    ensures LooksAt(Happenings(es + more), item)
  {
    if i :| 0 <= i < |es| && Looks(Happenings(es)[i], item) {
      assert Looks(Happenings(es + more)[i], item);
    } else {
      var i :| 0 <= i < |more| && Looks(Happenings(more)[i], item);
      assert Looks(Happenings(es + more)[|es| + i], item);
    }
  }

  lemma WalkRun(lib: Library, w: Live, only: Choice, origin: Origin, cs: seq<Candidate>) returns (es: seq<Event>)
    requires Safe(w.s) && w.s.walker.AtRest? && AllDeliverable(lib, w, only) && Readable(lib, w.src, only)
    requires forall c :: c in cs ==> Enumerated(lib, w, origin, c) && only(c.driveItemId)
    ensures CanRun(w.s, es) && AllPlain(lib, w, es) && Safe(Exec(w.s, es)) && Exec(w.s, es).walker.AtRest?
    ensures AllDeliverable(lib, w.(s := Exec(w.s, es)), only)
    ensures forall c :: c in cs ==> LooksAt(Happenings(es), c.driveItemId)
  {
    hide CanRun, Exec, Covered, Identity, Visit, Deliverable, AllDeliverable, Readable, LooksAt;
    if cs == [] {
      es := [];
      NoRun(w.s);
    } else {
      var n := |cs| - 1;
      var front := WalkRun(lib, w, only, origin, cs[..n]);
      var v := w.(s := Exec(w.s, front));
      var last := VisitRun(v.s, origin, cs[n]);
      assert cs[n] in cs && Enumerated(lib, w, origin, cs[n]);
      VisitDeliverable(lib, v, only, origin, cs[n], last);
      RunConcat(w.s, front, last);
      es := front + last;
      assert Looks(Happenings(last)[0], cs[n].driveItemId);
      LooksFirst(last, cs[n].driveItemId);
      forall c | c in cs
        ensures LooksAt(Happenings(es), c.driveItemId)
      {
        assert c in cs[..n] || c == cs[n];
        LooksConcat(front, last, c.driveItemId);
      }
    }
  }

  lemma LooksFirst(es: seq<Event>, item: string)
    requires es != [] && Looks(Do(es[0]), item)
    ensures LooksAt(Happenings(es), item)
  {
    assert Looks(Happenings(es)[0], item);
  }

  /**
    Wherever a permitted history stopped between two walks, for any choice of items: if these are
    readable and their messages on the queue can be delivered, then draining, one walk over them and
    draining again is possible, and it settles them all, whatever hangs on other items.
  */
  lemma SettlingIsPossible(
    lib: Library, start: Live, history: seq<Happening>, only: Choice, origin: Origin, cs: seq<Candidate>
  ) returns (drain: seq<Happening>, sweep: seq<Happening>)
    requires start == Live(INITIAL, map[], map[]) && CanHappen(lib, start, history)
    requires After(lib, start, history).s.walker.AtRest?
    requires AllDeliverable(lib, After(lib, start, history), only)
    requires Readable(lib, After(lib, start, history).src, only)
    requires forall c :: c in cs ==> Enumerated(lib, After(lib, start, history), origin, c) && only(c.driveItemId)
    requires forall item :: item in After(lib, start, history).src && only(item) ==>
               exists c :: c in cs && c.driveItemId == item
    ensures CanHappen(lib, start, history + drain)
    ensures ChosenDrained(After(lib, start, history + drain).s, only)
    ensures CanHappen(lib, After(lib, start, history + drain), sweep)
    ensures var w := After(lib, After(lib, start, history + drain), sweep);
      && ChosenDrained(w.s, only) && w.src == After(lib, start, history).src
      && forall item :: item in w.src && only(item) ==> Converged(lib, w, item)
  {
    hide CanRun, Exec, Safe, CanHappen, After, AllQuiet, AllPlain, LooksAt, Readable, AllDeliverable;
    hide Converged, ChosenDrained, Deliverable, SourceSeen, ItemDrained;
    var w := After(lib, start, history);
    HistoryIsSafe(lib, start, history);
    var es := DrainFrom(lib, w, only, 0);
    PlainRunHappens(lib, w, es);
    drain := Happenings(es);
    HappenConcat(lib, start, history, drain);
    var v := w.(s := Exec(w.s, es));
    DrainedIsReady(lib, w, only, es);
    var fs, gs := WalkAndDrain(lib, v, only, origin, cs);
    sweep := Happenings(fs) + Happenings(gs);
    forall item | item in v.src && only(item)
      ensures Converged(lib, After(lib, v, sweep), item)
    {
      var c :| c in cs && c.driveItemId == item;
      QuietConcat(lib, v, Happenings(fs), Happenings(gs), item);
      LooksConcat(fs, gs, item);
      assert Happenings(fs + gs) == sweep;
      ChosenItemDrained(lib, v.s, only, item);
      ChosenItemDrained(lib, After(lib, v, sweep).s, only, item);
      ItemConverges(lib, start, history + drain, sweep, item);
    }
  }

  lemma WalkAndDrain(lib: Library, v: Live, only: Choice, origin: Origin, cs: seq<Candidate>)
    returns (fs: seq<Event>, gs: seq<Event>)
    requires Safe(v.s) && v.s.walker.AtRest? && SourceSeen(lib, v)
    requires AllDeliverable(lib, v, only) && Readable(lib, v.src, only)
    requires forall c :: c in cs ==> Enumerated(lib, v, origin, c) && only(c.driveItemId)
    ensures CanHappen(lib, v, Happenings(fs)) && CanHappen(lib, After(lib, v, Happenings(fs)), Happenings(gs))
    ensures CanHappen(lib, v, Happenings(fs) + Happenings(gs))
    ensures var w := After(lib, v, Happenings(fs) + Happenings(gs)); ChosenDrained(w.s, only) && w.src == v.src
    ensures forall item :: AllQuiet(lib, v, Happenings(fs), item)
    ensures forall item :: AllQuiet(lib, After(lib, v, Happenings(fs)), Happenings(gs), item)
    ensures forall c :: c in cs ==> LooksAt(Happenings(fs), c.driveItemId)
  {
    hide CanRun, Exec, Safe, CanHappen, After, AllQuiet, AllPlain, LooksAt, Readable, AllDeliverable, ChosenDrained;
    fs := WalkRun(lib, v, only, origin, cs);
    var u := v.(s := Exec(v.s, fs));
    gs := DrainFrom(lib, u, only, 0);
    PlainRunHappens(lib, v, fs);
    PlainRunHappens(lib, u, gs);
    HappenConcat(lib, v, Happenings(fs), Happenings(gs));
  }

  lemma ChosenItemDrained(lib: Library, s: State, only: Choice, item: string)
    requires ChosenDrained(s, only) && only(item)
    ensures ItemDrained(lib, s, item)
  {
  }

  lemma HistoryIsSafe(lib: Library, start: Live, history: seq<Happening>)
    requires start == Live(INITIAL, map[], map[]) && CanHappen(lib, start, history)
    ensures Safe(After(lib, start, history).s) && SourceSeen(lib, After(lib, start, history))
  {
    HistoryServes(lib, start, history);
  }

  lemma DrainedIsReady(lib: Library, w: Live, only: Choice, es: seq<Event>)
    requires Safe(w.s) && CanRun(w.s, es) && ChosenDrained(Exec(w.s, es), only) && SourceSeen(lib, w)
    ensures var v := w.(s := Exec(w.s, es));
      Safe(v.s) && v.s.walker.AtRest? && AllDeliverable(lib, v, only) && SourceSeen(lib, v)
  {
    hide CanRun, Exec, Covered;
    RunIsSafe(w.s, es);
  }
}
