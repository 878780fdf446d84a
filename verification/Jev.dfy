/** The inference adapter: the answer space built from a category file is closed. */
module Jev {
  import opened Base
  import opened Text
  import opened Categories
  import opened Protocol
  import opened Pipeline
  import Results

  const UNKNOWN_DESCRIPTION: string := "None of the categories above fit the document."

  function Names(categories: seq<Category>): seq<string> {
    seq(|categories|, i requires 0 <= i < |categories| => categories[i].name)
  }

  function EnumValues(categories: seq<Category>): seq<string> {
    Names(categories) + [UNKNOWN]
  }

  function Labels(options: seq<string>): set<string> {
    set n | n in options
  }

  datatype JevResponse = JevResponse(choice: string, probabilities: map<string, real>, raw: string)

  type Client = (string, map<string, Option<string>>) -> Result<JevResponse, string>

  predicate ValidAnswer(options: seq<string>, response: JevResponse) {
    && response.choice in options
    && response.choice in response.probabilities
    && 0.0 <= response.probabilities[response.choice] <= 1.0
  }

  /** What the model is told about a category: its description, if it has one. */
  function Criterion(c: Category): Option<string> {
    if c.description == "" then None else Some(c.description)
  }

  /** The dictionary after the comprehension over the categories: later entries replace earlier ones. */
  function Named(cs: seq<Category>): map<string, Option<string>> {
    if cs == [] then map[]
    else var n := |cs| - 1; Named(cs[..n])[cs[n].name := Criterion(cs[n])]
  }

  function Criteria(cs: seq<Category>): map<string, Option<string>> {
    Named(cs)[UNKNOWN := Some(UNKNOWN_DESCRIPTION)]
  }

  ghost predicate LastOfItsName(cs: seq<Category>, k: nat) {
    k < |cs| && forall j :: k < j < |cs| ==> cs[j].name != cs[k].name
  }

  lemma {:induction false} NamedKeys(cs: seq<Category>)
    ensures Named(cs).Keys == Labels(Names(cs))
  {
    if cs != [] {
      var n := |cs| - 1;
      NamedKeys(cs[..n]);
      NamesSnoc(cs, n);
      assert cs[..n + 1] == cs;
    }
  }

  lemma {:induction false} NamedAt(cs: seq<Category>, k: nat)
    requires LastOfItsName(cs, k)
    ensures cs[k].name in Named(cs) && Named(cs)[cs[k].name] == Criterion(cs[k])
  {
    var n := |cs| - 1;
    if k < n {
      assert cs[n].name != cs[k].name;
      NamedAt(cs[..n], k);
    }
  }

  /** The model may choose exactly the labels of the enum, and each is described by its own category. */
  lemma AnswerSpace(cs: seq<Category>)
    ensures |EnumValues(cs)| == |cs| + 1 && EnumValues(cs)[|cs|] == "unknown"
    ensures forall k :: 0 <= k < |cs| ==> EnumValues(cs)[k] == cs[k].name
    ensures forall x :: x in Criteria(cs) <==> x in EnumValues(cs)
    ensures Criteria(cs)["unknown"] == Some("None of the categories above fit the document.")
    ensures forall k :: 0 <= k < |cs| && cs[k].name != "unknown" && LastOfItsName(cs, k) ==>
              && cs[k].name in Criteria(cs)
              && (cs[k].description == "" ==> Criteria(cs)[cs[k].name] == None)
              && (cs[k].description != "" ==> Criteria(cs)[cs[k].name] == Some(cs[k].description))
  {
    hide Named;
    NamedKeys(cs);
    forall k | 0 <= k < |cs| && cs[k].name != UNKNOWN && LastOfItsName(cs, k)
      ensures cs[k].name in Criteria(cs) && Criteria(cs)[cs[k].name] == Criterion(cs[k])
    {
      NamedAt(cs, k);
    }
  }

  class JevClassifier {
    const options: seq<string>
    const criteria: map<string, Option<string>>
    const maxInputChars: nat

    constructor (categorySet: CategorySet, maxInputChars: nat)
      ensures options == EnumValues(categorySet.categories) && this.maxInputChars == maxInputChars
      ensures criteria == Criteria(categorySet.categories)
    {
      var cs := categorySet.categories;
      var filled: map<string, Option<string>> := map[];
      var i := 0;
      while i < |cs|
        invariant i <= |cs| && filled == Named(cs[..i])
      {
        assert cs[..i + 1][..i] == cs[..i];
        filled := filled[cs[i].name := Criterion(cs[i])];
        i := i + 1;
      }
      assert cs[..|cs|] == cs;
      options := EnumValues(cs);
      criteria := filled[UNKNOWN := Some(UNKNOWN_DESCRIPTION)];
      this.maxInputChars := maxInputChars;
    }

    /** A classification is returned exactly for a short enough text and a valid answer, and is that answer. */
    method Classify(text: string, decide: Client) returns (r: Result<Classification, string>)
      ensures r == Answer(options, criteria, maxInputChars, decide, text)
      ensures r.Ok? <==>
        && |text| <= maxInputChars && decide(text, criteria).Ok?
        && var response := decide(text, criteria).value;
           && response.choice in options && response.choice in response.probabilities
           && 0.0 <= response.probabilities[response.choice] <= 1.0
      ensures r.Ok? ==>
        var response := decide(text, criteria).value;
        r.value == Classification(response.choice, response.probabilities[response.choice], response.raw)
    {
      if |text| > maxInputChars {
        return Err(TOO_LONG);
      }
      var answer := decide(text, criteria);
      if answer.Err? {
        return Err("Jev classification failed: " + answer.error);
      }
      var response := answer.value;
      if response.choice !in options {
        return Err("Jev returned an out-of-set label: " + response.choice);
      }
      if response.choice !in response.probabilities {
        return Err("Jev returned no valid probability for " + response.choice);
      }
      var probability := response.probabilities[response.choice];
      if !(0.0 <= probability <= 1.0) {
        return Err("Jev returned no valid probability for " + response.choice);
      }
      return Ok(Classification(response.choice, probability, response.raw));
    }
  }

  const TOO_LONG: string := "Document is too long for Jev"

  /** What classifying a text with a given client comes to. */
  function Answer(
    options: seq<string>, criteria: map<string, Option<string>>, maxInputChars: nat, decide: Client, text: string
  ): (r: Result<Classification, string>)
    ensures r.Ok? ==> Results.Admits(Labels(options), r.value)
  {
    if |text| > maxInputChars then Err(TOO_LONG)
    else
      match decide(text, criteria)
      case Err(e) => Err("Jev classification failed: " + e)
      case Ok(response) =>
        if response.choice !in options then Err("Jev returned an out-of-set label: " + response.choice)
        else if !ValidAnswer(options, response) then Err("Jev returned no valid probability for " + response.choice)
        else Ok(Classification(response.choice, response.probabilities[response.choice], response.raw))
  }

  lemma NamesSnoc(cs: seq<Category>, i: nat)
    requires i < |cs|
    ensures Labels(Names(cs[..i + 1])) == Labels(Names(cs[..i])) + {cs[i].name}
  {
    assert Names(cs[..i + 1]) == Names(cs[..i]) + [cs[i].name];
  }

  /** For every file that parses: no label repeats and `unknown` is a label exactly once, the last. */
  lemma ClosedLabelSet(lines: seq<string>)
    requires Acceptable(lines)
    ensures var options := EnumValues(Converted(Real(Sections(lines))));
      && (forall i, j :: 0 <= i < j < |options| ==> options[i] != options[j])
      && options[|options| - 1] == UNKNOWN
      && |options| >= 2
  {
    hide Lower, Real, Sections, CategoryOf, NoMalformedLine, AllHaveExamples;
    var blocks := Real(Sections(lines));
    RealAreReal(Sections(lines));
    UnknownIsLower();
    assert forall i :: 0 <= i < |blocks| ==> Converted(blocks)[i].name == blocks[i].name by {
      ConvertedNames(blocks);
    }
  }

  lemma ConvertedNames(blocks: seq<Block>)
    ensures forall i :: 0 <= i < |blocks| ==> Converted(blocks)[i].name == blocks[i].name
  {
  }

  // ---- from the category file to the table ----

  /** The delivery's classifier is the adapter built for these categories over some client. */
  ghost predicate UsesAdapter(io: Io, cs: seq<Category>, maxInputChars: nat, decide: Client) {
    forall text :: io.classify(text) == Answer(EnumValues(cs), Criteria(cs), maxInputChars, decide, text)
  }

  /** The outcome of a delivery that classifies with that adapter, whatever the client answers this time. */
  ghost predicate JudgedBy(o: Outcome, cs: seq<Category>, maxInputChars: nat) {
    exists msg, io, decide :: UsesAdapter(io, cs, maxInputChars, decide) && o == Judge(msg, io)
  }

  /** An empty cell, or a label of the enum with a probability. */
  predicate InEnum(cs: seq<Category>, category: Option<string>, confidence: Option<real>) {
    category.Some? ==>
      && (category.value == "unknown" || exists k :: 0 <= k < |cs| && cs[k].name == category.value)
      && confidence.Some? && 0.0 <= confidence.value <= 1.0
  }

  lemma AdmittedInEnum(cs: seq<Category>, category: Option<string>, confidence: Option<real>)
    requires Results.CellAdmitted(Labels(EnumValues(cs)), category, confidence)
    ensures InEnum(cs, category, confidence)
  {
    if category.Some? {
      AnswerSpace(cs);
      var k :| 0 <= k < |EnumValues(cs)| && EnumValues(cs)[k] == category.value;
    }
  }

  /**
    For every category file that parses and every run of the jobs, whatever the client answers from
    one delivery to the next: each category in the table and in the log is a member of the file's
    enum, with a confidence between 0 and 1.
  */
  lemma PersistedLabelsAreEnumMembers(markdown: string, maxInputChars: nat, es: seq<Event>)
    requires Acceptable(SplitLines(markdown)) && CanRun(INITIAL, es)
    requires var cs := Converted(Real(Sections(SplitLines(markdown))));
      forall i :: 0 <= i < |es| && es[i].Decide? ==> JudgedBy(es[i].outcome, cs, maxInputChars)
    ensures var cs := Converted(Real(Sections(SplitLines(markdown))));
      && Results.AllAdmitted(Exec(INITIAL, es), Labels(EnumValues(cs)))
      && (forall r :: 0 <= r < |Exec(INITIAL, es).documents| ==>
            InEnum(cs, Exec(INITIAL, es).documents[r].category, Exec(INITIAL, es).documents[r].confidence))
      && (forall i :: 0 <= i < |Exec(INITIAL, es).log| ==>
            InEnum(cs, Exec(INITIAL, es).log[i].row.category, Exec(INITIAL, es).log[i].row.confidence))
  {
    hide Acceptable, SplitLines, Sections, Real, Converted, CanRun, Exec;
    var cs := Converted(Real(Sections(SplitLines(markdown))));
    forall i | 0 <= i < |es| && es[i].Decide? && es[i].outcome.Verdict?
      ensures Results.Admits(Labels(EnumValues(cs)), es[i].outcome.classification)
    {
      JudgedVerdict(es[i].outcome, cs, maxInputChars);
    }
    Results.LabelsStayClosed(es, Labels(EnumValues(cs)));
    var t := Exec(INITIAL, es);
    hide EnumValues, Labels, InEnum, Results.CellAdmitted;
    forall r | 0 <= r < |t.documents|
      ensures InEnum(cs, t.documents[r].category, t.documents[r].confidence)
    {
      AdmittedInEnum(cs, t.documents[r].category, t.documents[r].confidence);
    }
    forall i | 0 <= i < |t.log|
      ensures InEnum(cs, t.log[i].row.category, t.log[i].row.confidence)
    {
      AdmittedInEnum(cs, t.log[i].row.category, t.log[i].row.confidence);
    }
  }

  lemma JudgedVerdict(o: Outcome, cs: seq<Category>, maxInputChars: nat)
    requires JudgedBy(o, cs, maxInputChars) && o.Verdict?
    ensures Results.Admits(Labels(EnumValues(cs)), o.classification)
  {
    var msg, io, decide :| UsesAdapter(io, cs, maxInputChars, decide) && o == Judge(msg, io);
    var text := io.extract(io.downloaded.value, msg.mimeType).text;
    assert io.classify(text).value == o.classification;
  }
}
