/** One uninterrupted successful delivery, and every other history of deliveries compared with it. */
module Redelivery {
  import opened Base
  import opened Protocol
  import opened Safety
  import opened Interleaving
  import opened Results

  function Overridden(s: State, m: nat): bool
    requires m < |s.mail| && RowOf(s, m) < |s.documents|
  {
    s.documents[RowOf(s, m)].classificationOverride.Some?
  }

  lemma RunOfOne(s: State, e: Event)
    requires Enabled(s, e)
    ensures CanRun(s, [e]) && Exec(s, [e]) == Apply(s, e)
  {
    assert [e][..0] == [];
  }

  /** Up to the decision every delivery of a row without override takes the same four steps. */
  lemma DecidedRun(s: State, m: nat, o: Outcome) returns (es: seq<Event>)
    requires m < |s.mail| && s.mail[m].phase.Ready? && At(s, m) && !Overridden(s, m)
    ensures es == [Receive(m), Load(m), Mark(m), Decide(m, o)] && CanRun(s, es)
    ensures var t := Exec(s, es); m < |t.mail| && t.mail[m].phase == Decided(o) && At(t, m)
  {
    hide CanRun, Exec;
    RunOfOne(s, Receive(m));
    RunSnoc(s, [Receive(m)], Load(m));
    assert [Receive(m)] + [Load(m)] == [Receive(m), Load(m)];
    RunSnoc(s, [Receive(m), Load(m)], Mark(m));
    assert [Receive(m), Load(m)] + [Mark(m)] == [Receive(m), Load(m), Mark(m)];
    RunSnoc(s, [Receive(m), Load(m), Mark(m)], Decide(m, o));
    es := [Receive(m), Load(m), Mark(m)] + [Decide(m, o)];
  }

  lemma OverrideRun(s: State, m: nat, o: Outcome)
    requires m < |s.mail| && s.mail[m].phase.Ready? && At(s, m) && Overridden(s, m)
    ensures CanRun(s, Script(m, true, o)) && IsGone(Exec(s, Script(m, true, o)), m)
  {
    hide CanRun, Exec;
    RunOfOne(s, Receive(m));
    RunSnoc(s, [Receive(m)], Load(m));
    assert [Receive(m)] + [Load(m)] == [Receive(m), Load(m)];
    RunSnoc(s, [Receive(m), Load(m)], RecordOverride(m));
    assert [Receive(m), Load(m)] + [RecordOverride(m)] == [Receive(m), Load(m), RecordOverride(m)];
    RunSnoc(s, [Receive(m), Load(m), RecordOverride(m)], Delete(m));
    assert Script(m, true, o) == [Receive(m), Load(m), RecordOverride(m)] + [Delete(m)];
  }

  lemma SkipRun(s: State, es: seq<Event>, m: nat, o: Outcome)
    requires CanRun(s, es) && At(Exec(s, es), m) && Exec(s, es).mail[m].phase == Decided(o) && o.Skip?
    ensures CanRun(s, es + [RecordSkip(m), Delete(m)]) && IsGone(Exec(s, es + [RecordSkip(m), Delete(m)]), m)
  {
    hide CanRun, Exec;
    RunSnoc(s, es, RecordSkip(m));
    RunSnoc(s, es + [RecordSkip(m)], Delete(m));
    assert es + [RecordSkip(m), Delete(m)] == es + [RecordSkip(m)] + [Delete(m)];
  }

  lemma VerdictRun(s: State, es: seq<Event>, m: nat, o: Outcome)
    requires CanRun(s, es) && At(Exec(s, es), m) && Exec(s, es).mail[m].phase == Decided(o) && o.Verdict?
    requires Identity(Exec(s, es))
    ensures var all := es + [Upsert(m), LogSuccess(m), Delete(m)];
      CanRun(s, all) && IsGone(Exec(s, all), m)
  {
    hide CanRun, Exec;
    UpsertHits(Exec(s, es), m);
    RunSnoc(s, es, Upsert(m));
    hide UpsertResult, Identity;
    RunSnoc(s, es + [Upsert(m)], LogSuccess(m));
    RunSnoc(s, es + [Upsert(m)] + [LogSuccess(m)], Delete(m));
    assert es + [Upsert(m), LogSuccess(m), Delete(m)] == es + [Upsert(m)] + [LogSuccess(m)] + [Delete(m)];
  }

  /** From every safe state the message can be delivered successfully in one go. */
  lemma SuccessIsARun(s: State, m: nat, o: Outcome)
    requires Safe(s) && m < |s.mail| && s.mail[m].phase.Ready? && !o.Failure?
    ensures At(s, m)
    ensures var script := Script(m, Overridden(s, m), o); CanRun(s, script) && IsGone(Exec(s, script), m)
  {
    hide CanRun, Exec, Covered;
    assert At(s, m);
    if Overridden(s, m) {
      OverrideRun(s, m, o);
    } else {
      var es := DecidedRun(s, m, o);
      RunIsSafe(s, es);
      hide Identity;
      if o.Skip? {
        SkipRun(s, es, m, o);
        assert Script(m, false, o) == es + [RecordSkip(m), Delete(m)];
      } else {
        VerdictRun(s, es, m, o);
        assert Script(m, false, o) == es + [Upsert(m), LogSuccess(m), Delete(m)];
      }
    }
  }

  /** A delivery on its own touches nobody else's row. */
  lemma {:induction false} OwnEventsSpare(s: State, es: seq<Event>, m: nat)
    requires CanRun(s, es) && m < |s.mail| && OnlyOf(es, m) && Safe(s)
    ensures Spared(s, es, m) && |Exec(s, es).mail| == |s.mail|
  {
    hide Apply, Safe;
    if es != [] {
      var n := |es| - 1;
      OwnEventsSpare(s, es[..n], m);
      RunIsSafe(s, es[..n]);
      assert Identity(Exec(s, es[..n])) by { SafeMeansIdentity(Exec(s, es[..n])); }
      MailStepFrame(Exec(s, es[..n]), es[n], m);
    }
  }

  lemma SafeMeansIdentity(s: State)
    requires Safe(s)
    ensures Identity(s)
  {
  }

  /**
    However often a message was redelivered before it went, and whatever was done to other rows
    meanwhile, its row is as after one clean success.
  */
  lemma AsAfterOneSuccess(s: State, es: seq<Event>, m: nat, o: Outcome)
    requires Safe(s) && m < |s.mail| && s.mail[m].phase.Ready? && !o.Failure?
    requires CanRun(s, es) && Spared(s, es, m) && Attempts(es, m, o) && IsGone(Exec(s, es), m)
    ensures RowOf(s, m) < |s.documents| <= |Exec(s, es).documents|
    ensures var script := Script(m, Overridden(s, m), o);
      && CanRun(s, script) && Undisturbed(s, Exec(s, script), m)
      && var d, once := Exec(s, es).documents[RowOf(s, m)], Exec(s, script).documents[RowOf(s, m)];
         d.(errorMessage := None, retryCount := 0) == once.(errorMessage := None, retryCount := 0)
    ensures OnlyOf(es, m) ==> Undisturbed(s, Exec(s, es), m)
  {
    hide CanRun, Exec, Safe, Spared, Attempts, OnlyOf, IsGone, Undisturbed;
    SuccessIsARun(s, m, o);
    var script := Script(m, Overridden(s, m), o);
    ScriptIsOwn(m, Overridden(s, m), o);
    OwnEventsSpare(s, script, m);
    RedeliveryIsIdempotent(s, es, script, m, o);
    RedeliveryIsIdempotent(s, script, script, m, o);
  }

  lemma ScriptIsOwn(m: nat, override: bool, o: Outcome)
    ensures OnlyOf(Script(m, override, o), m) && Attempts(Script(m, override, o), m, o)
  {
  }
}
