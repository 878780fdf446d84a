/** Runs as interleavings: one process's own events among those of everybody else. */
module Interleaving {
  import opened Base
  import opened Protocol
  import opened Safety

  /** What the other processes do at a given tick, in a given state. */
  type Environment = (nat, State) -> seq<Event>

  predicate IsWalkerEvent(e: Event) {
    e.Look? || e.Commit? || e.Send? || e.LoseSend? || e.Abandon?
  }

  /** A process is the walker or the processor that holds one message. */
  datatype Process = TheWalker | HolderOf(m: nat)

  predicate Belongs(e: Event, p: Process) {
    match p
    case TheWalker => IsWalkerEvent(e)
    case HolderOf(m) => MailOf(e) == Some(m)
  }

  ghost predicate Foreign(env: Environment, p: Process) {
    forall k: nat, s: State :: Admissible(s, env(k, s), p)
  }

  ghost predicate Admissible(s: State, es: seq<Event>, p: Process) {
    CanRun(s, es) && forall i :: 0 <= i < |es| ==> !Belongs(es[i], p)
  }

  ghost function Own(es: seq<Event>, p: Process): seq<Event> {
    if es == [] then []
    else
      var front := Own(es[..|es| - 1], p);
      if Belongs(es[|es| - 1], p) then front + [es[|es| - 1]] else front
  }

  lemma RunSnoc(s: State, es: seq<Event>, e: Event)
    requires CanRun(s, es) && Enabled(Exec(s, es), e)
    ensures CanRun(s, es + [e]) && Exec(s, es + [e]) == Apply(Exec(s, es), e)
  {
    assert (es + [e])[..|es|] == es;
  }

  lemma OwnSnoc(es: seq<Event>, e: Event, p: Process)
    ensures Own(es + [e], p) == if Belongs(e, p) then Own(es, p) + [e] else Own(es, p)
  {
    assert (es + [e])[..|es|] == es;
  }

  lemma RunGlue(s: State, es: seq<Event>, t: State, more: seq<Event>)
    requires more != [] && CanRun(t, more)
    requires CanRun(s, es + more[..|more| - 1]) && Exec(s, es + more[..|more| - 1]) == Exec(t, more[..|more| - 1])
    ensures CanRun(s, es + more) && Exec(s, es + more) == Exec(t, more)
  {
    hide Apply, Enabled;
    var n := |more| - 1;
    assert (es + more)[..|es| + n] == es + more[..n];
    assert (es + more)[|es| + n] == more[n];
  }

  lemma {:induction false} RunConcat(s: State, es: seq<Event>, more: seq<Event>)
    requires CanRun(s, es) && CanRun(Exec(s, es), more)
    ensures CanRun(s, es + more) && Exec(s, es + more) == Exec(Exec(s, es), more)
  {
    if more == [] {
      assert es + more == es;
    } else {
      RunConcat(s, es, more[..|more| - 1]);
      RunGlue(s, es, Exec(s, es), more);
    }
  }

  lemma {:induction false} RunSplit(s: State, es: seq<Event>, more: seq<Event>)
    requires CanRun(s, es + more)
    ensures CanRun(s, es) && CanRun(Exec(s, es), more) && Exec(s, es + more) == Exec(Exec(s, es), more)
  {
    if more == [] {
      assert es + more == es;
    } else {
      var n := |more| - 1;
      assert (es + more)[..|es| + n] == es + more[..n] && (es + more)[|es| + n] == more[n];
      RunSplit(s, es, more[..n]);
    }
  }

  lemma {:induction false} OwnConcat(es: seq<Event>, more: seq<Event>, p: Process)
    ensures Own(es + more, p) == Own(es, p) + Own(more, p)
    ensures (forall i :: 0 <= i < |more| ==> !Belongs(more[i], p)) ==> Own(more, p) == []
  {
    if more == [] {
      assert es + more == es;
    } else {
      var n := |more| - 1;
      OwnConcat(es, more[..n], p);
      assert es + more == (es + more[..n]) + [more[n]];
      OwnSnoc(es + more[..n], more[n], p);
    }
  }

  /** Nobody else moves a process's program counter. */
  lemma {:induction false} ForeignKeepsPc(s: State, es: seq<Event>, p: Process)
    requires Safe(s) && Admissible(s, es, p)
    requires p.HolderOf? ==> p.m < |s.mail|
    ensures Safe(Exec(s, es))
    ensures p.HolderOf? ==> p.m < |Exec(s, es).mail| && Exec(s, es).mail[p.m] == s.mail[p.m]
    ensures p.TheWalker? ==> Exec(s, es).walker == s.walker
    ensures |Exec(s, es).documents| >= |s.documents|
  {
    hide Apply, Covered, UniqueKeys, WalkerAgrees;
    RunIsSafe(s, es);
    if es != [] {
      var n := |es| - 1;
      var t := Exec(s, es[..n]);
      ForeignKeepsPc(s, es[..n], p);
      PcKept(t, es[n], p);
    }
  }

  lemma PcKept(t: State, e: Event, p: Process)
    requires Safe(t) && Enabled(t, e) && !Belongs(e, p)
    requires p.HolderOf? ==> p.m < |t.mail|
    ensures p.HolderOf? ==> p.m < |Apply(t, e).mail| && Apply(t, e).mail[p.m] == t.mail[p.m]
    ensures p.TheWalker? ==> Apply(t, e).walker == t.walker
    ensures |Apply(t, e).documents| >= |t.documents|
  {
    if MailOf(e).Some? {
      MailStepFrame(t, e, MailOf(e).value);
    } else {
      QueueKept(t, e, 0);
    }
  }

  // ---- scripts ----

  /** The complete event sequence of one delivery that meets no driver failure. */
  function Script(m: nat, sawOverride: bool, o: Outcome): seq<Event> {
    if sawOverride then [Receive(m), Load(m), RecordOverride(m), Delete(m)]
    else
      match o
      case Skip(_) => [Receive(m), Load(m), Mark(m), Decide(m, o), RecordSkip(m), Delete(m)]
      case Failure(_) => [Receive(m), Load(m), Mark(m), Decide(m, o), RecordFailure(m)]
      case Verdict(_) => [Receive(m), Load(m), Mark(m), Decide(m, o), Upsert(m), LogSuccess(m), Delete(m)]
  }

  /** The events that happened are the script up to the first one whose driver call fails. */
  ghost predicate RanUntilFailure(happened: seq<Event>, script: seq<Event>, fails: Event -> bool) {
    && happened <= script
    && (forall i :: 0 <= i < |happened| ==> !fails(script[i]))
    && (|happened| < |script| ==> fails(script[|happened|]))
  }

  /** The delivery came as far as the commit of a hash-mismatch skip, and that commit raised. */
  ghost predicate MismatchSkipRaised(m: nat, sawOverride: bool, o: Outcome, fails: Event -> bool) {
    && !sawOverride && o == Skip(HASH_MISMATCH)
    && RanUntilFailure([Receive(m), Load(m), Mark(m), Decide(m, o)], Script(m, sawOverride, o), fails)
  }

  /**
    What one delivery contributes: its script up to the first failing call; but a hash-mismatch
    skip whose commit raises is followed by recording that failure, unless this raises as well.
  */
  ghost predicate RanDelivery(
    happened: seq<Event>, m: nat, sawOverride: bool, o: Outcome, fails: Event -> bool)
  {
    if MismatchSkipRaised(m, sawOverride, o, fails) then
      happened ==
        [Receive(m), Load(m), Mark(m), Decide(m, o), Decide(m, Failure(COMMIT_FAILED))]
        + if fails(RecordFailure(m)) then [] else [RecordFailure(m)]
    else RanUntilFailure(happened, Script(m, sawOverride, o), fails)
  }

  /** Every other failing call ends the delivery where it stands. */
  lemma StoppedThere(happened: seq<Event>, m: nat, sawOverride: bool, o: Outcome, fails: Event -> bool)
    requires RanUntilFailure(happened, Script(m, sawOverride, o), fails)
    requires |happened| != 4 || sawOverride || o != Skip(HASH_MISMATCH)
    ensures RanDelivery(happened, m, sawOverride, o, fails)
  {
    var script := Script(m, sawOverride, o);
    if |happened| < 4 {
      assert fails(script[|happened|]);
    } else if |happened| > 4 {
      assert !fails(script[4]);
    }
  }
}
