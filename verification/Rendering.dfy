/** The canonical rendering of a category set, and that parsing inverts it. */
module Rendering {
  import opened Base
  import opened Text
  import opened Categories

  function BulletLines(examples: seq<string>): seq<string> {
    seq(|examples|, i requires 0 <= i < |examples| => "- " + examples[i])
  }

  function BodyLines(c: Category): seq<string> {
    (if c.description == "" then [] else [c.description]) + BulletLines(c.examples)
  }

  function SetLines(cs: seq<Category>): seq<string> {
    if cs == [] then []
    else
      var c := cs[|cs| - 1];
      SetLines(cs[..|cs| - 1]) + (["## " + c.name] + BodyLines(c))
  }

  /** Neither a heading nor malformed: the line stays in the section it follows. */
  predicate PlainLine(line: string) {
    HeadingName(line).None? && !MalformedHeading(line) && '\n' !in line
  }

  predicate WellFormedCategory(c: Category) {
    && Clean(c.name) && Lower(c.name) != UNKNOWN
    && (c.description == "" || (Clean(c.description) && PlainLine(c.description) && BulletText(c.description).None?))
    && c.examples != [] && forall i :: 0 <= i < |c.examples| ==> Clean(c.examples[i])
  }

  ghost predicate WellFormedSet(cs: seq<Category>) {
    && cs != []
    && (forall i :: 0 <= i < |cs| ==> WellFormedCategory(cs[i]))
    && (forall i, j :: 0 <= i < j < |cs| ==> Lower(cs[i].name) != Lower(cs[j].name))
  }

  function BlockOf(c: Category): Block {
    Block(c.name, BodyLines(c))
  }

  function BlocksOf(cs: seq<Category>): seq<Block> {
    seq(|cs|, i requires 0 <= i < |cs| => BlockOf(cs[i]))
  }

  // ---- one section ----

  lemma HeadingLine(name: string)
    requires Clean(name)
    ensures HeadingName("## " + name) == Some(name) && !MalformedHeading("## " + name) && '\n' !in "## " + name
  {
    hide Payload, LTrim, RTrim, Strip;
    var line := "## " + name;
    assert line[..2] == "##" && line[2..] == " " + name;
    CleanPayload(name);
    MalformedExactly(line);
  }

  lemma BulletLine(e: string)
    requires Clean(e)
    ensures BulletText("- " + e) == Some(e) && PlainLine("- " + e)
  {
    var line := "- " + e;
    assert LTrim(line) == line && line[1..] == " " + e;
    CleanPayload(e);
    assert line[..2] == "- ";
    MalformedExactly(line);
  }

  lemma BodySnoc(body: seq<string>, line: string)
    ensures Bullets(body + [line]) ==
              if BulletText(line).Some? then Bullets(body) + [BulletText(line).value] else Bullets(body)
    ensures Preamble(body + [line]) ==
              if Bullets(body + [line]) == [] && Strip(line) != ""
              then Preamble(body) + [Strip(line)] else Preamble(body)
  {
    assert (body + [line])[..|body|] == body;
  }

  lemma {:induction false} BulletsOfLines(prefix: seq<string>, examples: seq<string>)
    requires forall i :: 0 <= i < |examples| ==> Clean(examples[i])
    ensures Bullets(prefix + BulletLines(examples)) == Bullets(prefix) + examples
    ensures Preamble(prefix + BulletLines(examples)) == Preamble(prefix)
  {
    hide BulletText, Bullets, Preamble, Strip, PlainLine;
    if examples == [] {
      assert prefix + BulletLines(examples) == prefix;
    } else {
      var n := |examples| - 1;
      BulletsOfLines(prefix, examples[..n]);
      BulletLine(examples[n]);
      var front := prefix + BulletLines(examples[..n]);
      BodySnoc(front, "- " + examples[n]);
      assert prefix + BulletLines(examples) == front + ["- " + examples[n]];
      assert examples == examples[..n] + [examples[n]];
    }
  }

  lemma BodyOf(c: Category)
    requires WellFormedCategory(c)
    ensures CategoryOf(BlockOf(c)) == c && Bullets(BlockOf(c).body) != []
    ensures forall i :: 0 <= i < |BodyLines(c)| ==> PlainLine(BodyLines(c)[i])
  {
    hide BulletText, Strip, PlainLine, Clean, Bullets, Preamble;
    var prefix := if c.description == "" then [] else [c.description];
    BulletsOfLines(prefix, c.examples);
    PrefixParts(c);
    forall i | 0 <= i < |c.examples|
      ensures PlainLine(BulletLines(c.examples)[i])
    {
      BulletLine(c.examples[i]);
    }
  }

  lemma PrefixParts(c: Category)
    requires WellFormedCategory(c)
    ensures var prefix := if c.description == "" then [] else [c.description];
      Bullets(prefix) == [] && Preamble(prefix) == prefix && Join(" ", prefix) == c.description
  {
    if c.description != "" {
      CleanPayload(c.description);
      BodySnoc([], c.description);
      assert [] + [c.description] == [c.description];
    }
  }

  // ---- sections of appended lines ----

  lemma SectionsSnoc(lines: seq<string>, line: string)
    ensures HeadingName(line).Some? ==>
              Sections(lines + [line]) == Sections(lines) + [Block(HeadingName(line).value, [])]
    ensures HeadingName(line).None? && !MalformedHeading(line) && Sections(lines) != [] ==>
              Sections(lines + [line]) == AppendLine(Sections(lines), line)
  {
    assert (lines + [line])[..|lines|] == lines;
  }

  lemma {:induction false} SectionAppended(lines: seq<string>, heading: string, name: string, body: seq<string>)
    requires NoMalformedLine(lines) && HeadingName(heading) == Some(name) && !MalformedHeading(heading)
    requires forall i :: 0 <= i < |body| ==> PlainLine(body[i])
    ensures Sections(lines + ([heading] + body)) == Sections(lines) + [Block(name, body)]
    ensures NoMalformedLine(lines + ([heading] + body))
  {
    hide HeadingName, MalformedHeading, Sections;
    if body == [] {
      SectionsSnoc(lines, heading);
      assert [heading] + body == [heading];
    } else {
      var n := |body| - 1;
      SectionAppended(lines, heading, name, body[..n]);
      var front := lines + ([heading] + body[..n]);
      SectionsSnoc(front, body[n]);
      assert lines + ([heading] + body) == front + [body[n]];
      assert body == body[..n] + [body[n]];
    }
  }

  lemma EmptyFile()
    ensures NoMalformedLine([]) && Sections([]) == []
  {
  }

  lemma {:induction false} SetAppended(lines: seq<string>, cs: seq<Category>)
    requires NoMalformedLine(lines) && forall i :: 0 <= i < |cs| ==> WellFormedCategory(cs[i])
    ensures Sections(lines + SetLines(cs)) == Sections(lines) + BlocksOf(cs)
    ensures NoMalformedLine(lines + SetLines(cs))
  {
    hide Sections, WellFormedCategory, BodyLines, NoMalformedLine, BlockOf;
    if cs == [] {
      assert lines + SetLines(cs) == lines;
    } else {
      var n := |cs| - 1;
      SetAppended(lines, cs[..n]);
      CategoryAppended(lines + SetLines(cs[..n]), cs[n]);
      assert lines + SetLines(cs) == lines + SetLines(cs[..n]) + (["## " + cs[n].name] + BodyLines(cs[n]));
      assert BlocksOf(cs) == BlocksOf(cs[..n]) + [BlockOf(cs[n])];
    }
  }

  lemma CategoryAppended(lines: seq<string>, c: Category)
    requires NoMalformedLine(lines) && WellFormedCategory(c)
    ensures Sections(lines + (["## " + c.name] + BodyLines(c))) == Sections(lines) + [BlockOf(c)]
    ensures NoMalformedLine(lines + (["## " + c.name] + BodyLines(c)))
  {
    hide Sections, NoMalformedLine, BodyLines, HeadingName, MalformedHeading, PlainLine, CategoryOf;
    HeadingLine(c.name);
    BodyOf(c);
    SectionAppended(lines, "## " + c.name, c.name, BodyLines(c));
  }

  lemma {:induction false} RealConcat(a: seq<Block>, b: seq<Block>)
    ensures Real(a + b) == Real(a) + Real(b)
  {
    if b == [] {
      assert a + b == a;
    } else {
      var n := |b| - 1;
      RealConcat(a, b[..n]);
      assert (a + b)[..|a| + n] == a + b[..n];
    }
  }

  lemma {:induction false} RealOfSet(cs: seq<Category>)
    requires forall i :: 0 <= i < |cs| ==> WellFormedCategory(cs[i])
    ensures Real(BlocksOf(cs)) == BlocksOf(cs)
  {
    hide BodyLines, BulletText, PlainLine, Clean, Lower;
    if cs != [] {
      var n := |cs| - 1;
      RealOfSet(cs[..n]);
      assert BlocksOf(cs)[..n] == BlocksOf(cs[..n]);
      assert BlocksOf(cs) == BlocksOf(cs[..n]) + [BlockOf(cs[n])];
    }
  }

  // ---- the round trip ----

  lemma UnknownIsNotReal(u: Block)
    requires !IsReal(u)
    ensures Real([u]) == []
  {
    assert [u][..0] == [];
  }

  lemma {:induction false} SetLinesOneLine(cs: seq<Category>)
    requires forall i :: 0 <= i < |cs| ==> WellFormedCategory(cs[i])
    ensures forall i :: 0 <= i < |SetLines(cs)| ==> '\n' !in SetLines(cs)[i]
  {
    hide HeadingName, MalformedHeading, BodyLines, CategoryOf, Lower;
    if cs != [] {
      SetLinesOneLine(cs[..|cs| - 1]);
      HeadingLine(cs[|cs| - 1].name);
      BodyOf(cs[|cs| - 1]);
    }
  }

  /** What a file means: the categories `ParseCategories` returns, if it succeeds. */
  ghost function MeaningOf(lines: seq<string>): Option<seq<Category>> {
    if Acceptable(lines) then Some(Converted(Real(Sections(lines)))) else None
  }

  ghost function Meaning(markdown: string): Option<seq<Category>> {
    MeaningOf(SplitLines(markdown))
  }

  lemma BlocksAreAcceptable(cs: seq<Category>)
    requires WellFormedSet(cs)
    ensures BlocksOf(cs) != [] && DistinctNames(BlocksOf(cs)) && AllHaveExamples(BlocksOf(cs))
    ensures Converted(BlocksOf(cs)) == cs
  {
    forall i | 0 <= i < |cs|
      ensures CategoryOf(BlocksOf(cs)[i]) == cs[i] && Bullets(BlocksOf(cs)[i].body) != []
    {
      BodyOf(cs[i]);
    }
  }

  lemma RealOfRendering(cs: seq<Category>)
    requires WellFormedSet(cs)
    ensures NoMalformedLine(SetLines(cs)) && Real(Sections(SetLines(cs))) == BlocksOf(cs)
  {
    hide WellFormedCategory, Real, Sections, NoMalformedLine, SetLines;
    EmptyFile();
    SetAppended([], cs);
    assert [] + SetLines(cs) == SetLines(cs);
    assert [] + BlocksOf(cs) == BlocksOf(cs);
    RealOfSet(cs);
  }

  /** Parsing inverts rendering. */
  lemma ParseInvertsRender(cs: seq<Category>)
    requires WellFormedSet(cs)
    ensures Meaning(Unlines(SetLines(cs))) == Some(cs)
  {
    hide WellFormedCategory, SetLines, Real, Sections, SplitLines, Unlines, NoMalformedLine, BlocksOf, Converted;
    SetLinesOneLine(cs);
    SplitUnlines(SetLines(cs));
    RealOfRendering(cs);
    BlocksAreAcceptable(cs);
  }

  // ---- reserved sections ----

  /** A heading that lower-cases to `unknown`, with any further lines that stay below it. */
  predicate UnknownSection(lines: seq<string>) {
    && lines != []
    && HeadingName(lines[0]).Some? && Lower(HeadingName(lines[0]).value) == UNKNOWN
    && forall i :: 1 <= i < |lines| ==> HeadingName(lines[i]).None? && !MalformedHeading(lines[i])
  }

  predicate StartsSection(lines: seq<string>) {
    lines == [] || HeadingName(lines[0]).Some?
  }

  lemma {:induction false} SectionsConcat(a: seq<string>, b: seq<string>)
    requires StartsSection(b)
    ensures Sections(a + b) == Sections(a) + Sections(b)
    ensures b != [] ==> Sections(b) != []
  {
    hide HeadingName, MalformedHeading;
    if b == [] {
      assert a + b == a;
    } else {
      var n := |b| - 1;
      SectionsConcat(a, b[..n]);
      assert (a + b)[..|a| + n] == a + b[..n] && (a + b)[|a| + n] == b[n];
    }
  }

  /** The section has one block, and that block is dropped. */
  lemma {:induction false} UnknownSectionIsOneBlock(u: seq<string>)
    requires UnknownSection(u)
    ensures |Sections(u)| == 1 && !IsReal(Sections(u)[0]) && NoMalformedLine(u)
  {
    hide HeadingName, MalformedHeading, Lower;
    var n := |u| - 1;
    if n == 0 {
      assert u[..0] == [];
      NotMalformed(u[0]);
    } else {
      UnknownSectionIsOneBlock(u[..n]);
    }
  }

  lemma NotMalformed(line: string)
    requires HeadingName(line).Some?
    ensures !MalformedHeading(line)
  {
    MalformedExactly(line);
  }

  /** Inserted anywhere between sections of any file, well-formed or not, an `unknown` section changes nothing. */
  lemma UnknownLinesAreIgnored(a: seq<string>, u: seq<string>, b: seq<string>)
    requires UnknownSection(u) && StartsSection(b)
    ensures MeaningOf(a + u + b) == MeaningOf(a + b)
  {
    hide Sections, Real, Converted, UnknownSection, StartsSection, HeadingName, MalformedHeading;
    StartsWithHeading(u);
    SectionsConcat(a + u, b);
    SectionsConcat(a, u);
    SectionsConcat(a, b);
    UnknownSectionIsOneBlock(u);
    RealConcat(Sections(a) + Sections(u), Sections(b));
    RealConcat(Sections(a), Sections(u));
    RealConcat(Sections(a), Sections(b));
    assert Sections(u) == [Sections(u)[0]];
    UnknownIsNotReal(Sections(u)[0]);
    assert Real(Sections(a + u + b)) == Real(Sections(a)) + [] + Real(Sections(b)) == Real(Sections(a + b));
    MalformedConcat(a + u, b);
    MalformedConcat(a, u);
    MalformedConcat(a, b);
  }

  /** Lines before the first heading are ignored. */
  lemma PreambleIsIgnored(a: seq<string>, b: seq<string>)
    requires StartsSection(b)
    requires forall i :: 0 <= i < |a| ==> HeadingName(a[i]).None? && !MalformedHeading(a[i])
    ensures MeaningOf(a + b) == MeaningOf(b)
  {
    hide HeadingName, MalformedHeading, Real, Converted;
    NoSections(a);
    SectionsConcat(a, b);
    MalformedConcat(a, b);
    assert [] + Sections(b) == Sections(b);
  }

  lemma {:induction false} NoSections(a: seq<string>)
    requires forall i :: 0 <= i < |a| ==> HeadingName(a[i]).None?
    ensures Sections(a) == []
  {
    if a != [] {
      NoSections(a[..|a| - 1]);
    }
  }

  // ---- bodies ----

  /**
    One more line in a section's body: a bullet of any sign and indentation adds its text to the
    examples; before the first bullet any other line that is not blank adds its trimmed text to the
    description, set off by one space; nothing else counts.
  */
  lemma BodyGrows(name: string, body: seq<string>, line: string)
    ensures var c, c' := CategoryOf(Block(name, body)), CategoryOf(Block(name, body + [line]));
      && c'.name == name
      && c'.examples == (if BulletText(line).Some? then c.examples + [BulletText(line).value] else c.examples)
      && c'.description ==
           if BulletText(line).None? && c.examples == [] && Strip(line) != ""
           then (if c.description == "" then Strip(line) else c.description + " " + Strip(line))
           else c.description
  {
    hide BulletText, Strip;
    BodySnoc(body, line);
    if BulletText(line).None? && Bullets(body) == [] && Strip(line) != "" {
      JoinSnoc(Preamble(body), Strip(line));
      NonBlank(body);
    }
  }

  /** An empty body has neither description nor examples. */
  lemma BodyStarts(name: string)
    ensures CategoryOf(Block(name, [])) == Category(name, "", [])
  {
  }

  lemma {:induction false} JoinSnoc(parts: seq<string>, last: string)
    ensures Join(" ", parts + [last]) == if parts == [] then last else Join(" ", parts) + " " + last
  {
    if parts == [] {
      assert parts + [last] == [last];
    } else {
      JoinSnoc(parts[1..], last);
      assert (parts + [last])[1..] == parts[1..] + [last];
    }
  }

  lemma {:induction false} NonBlank(body: seq<string>)
    ensures forall i :: 0 <= i < |Preamble(body)| ==> Preamble(body)[i] != ""
    ensures Preamble(body) != [] ==> Join(" ", Preamble(body)) != ""
  {
    hide BulletText, Strip, Bullets;
    if body != [] {
      NonBlank(body[..|body| - 1]);
    }
  }

  lemma StartsWithHeading(u: seq<string>)
    requires UnknownSection(u)
    ensures StartsSection(u)
  {
  }

  lemma MalformedConcat(a: seq<string>, b: seq<string>)
    ensures NoMalformedLine(a + b) <==> NoMalformedLine(a) && NoMalformedLine(b)
  {
    hide MalformedHeading;
    if NoMalformedLine(a + b) {
      assert forall i :: 0 <= i < |a| ==> a[i] == (a + b)[i];
      assert forall i :: 0 <= i < |b| ==> b[i] == (a + b)[|a| + i];
    }
  }

  /** The same for texts. */
  lemma UnknownSectionIsIgnored(a: seq<string>, u: seq<string>, b: seq<string>)
    requires UnknownSection(u) && StartsSection(b)
    requires forall line :: line in a + u + b ==> '\n' !in line
    ensures Meaning(Unlines(a + u + b)) == Meaning(Unlines(a + b))
  {
    hide UnknownSection, StartsSection, MeaningOf, SplitLines, Unlines;
    assert forall line :: line in a + b ==> line in a + u + b;
    SplitUnlines(a + u + b);
    SplitUnlines(a + b);
    UnknownLinesAreIgnored(a, u, b);
  }
}
