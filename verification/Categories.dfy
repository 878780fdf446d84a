/** The category-file parser: when it succeeds, what it returns, and that it inverts rendering. */
module Categories {
  import opened Base
  import opened Text

  const UNKNOWN: string := "unknown"

  datatype Category = Category(name: string, description: string, examples: seq<string>)

  datatype CategorySet = CategorySet(categories: seq<Category>)

  datatype Error = Malformed(line: string) | Duplicate(name: string) | NoExamples(name: string) | NoCategories

  datatype Block = Block(name: string, body: seq<string>)

  // ---- the specification, line by line ----

  /** The sections of a file whatever its malformed lines; lines before the first heading are dropped. */
  function Sections(lines: seq<string>): seq<Block> {
    if lines == [] then []
    else
      var front, line := Sections(lines[..|lines| - 1]), lines[|lines| - 1];
      if HeadingName(line).Some? then front + [Block(HeadingName(line).value, [])]
      else if front != [] && !MalformedHeading(line) then AppendLine(front, line)
      else front
  }

  function AppendLine(blocks: seq<Block>, line: string): seq<Block>
    requires blocks != []
  {
    var n := |blocks| - 1;
    blocks[n := blocks[n].(body := blocks[n].body + [line])]
  }

  /** The payloads of the bullet lines. */
  function Bullets(body: seq<string>): seq<string> {
    if body == [] then []
    else
      var b := BulletText(body[|body| - 1]);
      Bullets(body[..|body| - 1]) + if b.Some? then [b.value] else []
  }

  /** The stripped non-blank lines before the first bullet. */
  function Preamble(body: seq<string>): seq<string> {
    if body == [] then []
    else
      var front, line := body[..|body| - 1], body[|body| - 1];
      if Bullets(body) == [] && Strip(line) != "" then Preamble(front) + [Strip(line)] else Preamble(front)
  }

  function CategoryOf(b: Block): Category {
    Category(b.name, Join(" ", Preamble(b.body)), Bullets(b.body))
  }

  predicate IsReal(b: Block) {
    Lower(b.name) != UNKNOWN
  }

  /** The non-`unknown` sections, in file order. */
  function Real(blocks: seq<Block>): seq<Block> {
    if blocks == [] then []
    else
      var n := |blocks| - 1;
      Real(blocks[..n]) + if IsReal(blocks[n]) then [blocks[n]] else []
  }

  function Converted(blocks: seq<Block>): seq<Category> {
    seq(|blocks|, i requires 0 <= i < |blocks| => CategoryOf(blocks[i]))
  }

  ghost predicate DistinctNames(blocks: seq<Block>) {
    forall i, j :: 0 <= i < j < |blocks| ==> Lower(blocks[i].name) != Lower(blocks[j].name)
  }

  ghost predicate AllHaveExamples(blocks: seq<Block>) {
    forall i :: 0 <= i < |blocks| ==> Bullets(blocks[i].body) != []
  }

  ghost predicate NoMalformedLine(lines: seq<string>) {
    forall i :: 0 <= i < |lines| ==> !MalformedHeading(lines[i])
  }

  ghost predicate FirstMalformed(lines: seq<string>, line: string) {
    exists i :: 0 <= i < |lines| && lines[i] == line && MalformedHeading(line) && NoMalformedLine(lines[..i])
  }

  /** The whole condition under which a file is accepted. */
  ghost predicate Acceptable(lines: seq<string>) {
    && NoMalformedLine(lines)
    && Real(Sections(lines)) != []
    && DistinctNames(Real(Sections(lines)))
    && AllHaveExamples(Real(Sections(lines)))
  }

  /** The k-th real section is the first one that cannot be accepted, and e says why. */
  ghost predicate FirstFault(blocks: seq<Block>, k: nat, e: Error) {
    && k < |blocks| && DistinctNames(blocks[..k]) && AllHaveExamples(blocks[..k])
    && var repeated := exists i :: 0 <= i < k && Lower(blocks[i].name) == Lower(blocks[k].name);
       (repeated || Bullets(blocks[k].body) == [])
       && e == if repeated then Duplicate(blocks[k].name) else NoExamples(blocks[k].name)
  }

  // ---- the program ----

  /** `_split_into_blocks` on the already split lines. */
  method SplitIntoBlocks(lines: seq<string>) returns (r: Result<seq<Block>, Error>)
    ensures r.Ok? <==> NoMalformedLine(lines)
    ensures r.Ok? ==> r.value == Sections(lines)
    ensures r.Err? ==> r.error.Malformed? && FirstMalformed(lines, r.error.line)
  {
    hide HeadingName, MalformedHeading;
    var blocks: seq<Block> := [];
    var i := 0;
    while i < |lines|
      invariant i <= |lines| && NoMalformedLine(lines[..i]) && blocks == Sections(lines[..i])
    {
      var line := lines[i];
      assert lines[..i + 1][..i] == lines[..i];
      MalformedExactly(line);
      var heading := HeadingName(line);
      if heading.Some? {
        blocks := blocks + [Block(heading.value, [])];
      } else if MalformedHeading(line) {
        return Err(Malformed(line));
      } else if blocks != [] {
        blocks := AppendLine(blocks, line);
      }
      i := i + 1;
    }
    assert lines[..|lines|] == lines;
    return Ok(blocks);
  }

  /** `_build_category` */
  method BuildCategory(name: string, body: seq<string>) returns (r: Result<Category, Error>)
    ensures Bullets(body) == [] ==> r == Err(NoExamples(name))
    ensures Bullets(body) != [] ==> r == Ok(CategoryOf(Block(name, body)))
  {
    hide BulletText, Strip, Join;
    var parts: seq<string>, examples: seq<string> := [], [];
    var i := 0;
    while i < |body|
      invariant i <= |body| && examples == Bullets(body[..i]) && parts == Preamble(body[..i])
    {
      var line := body[i];
      assert body[..i + 1][..i] == body[..i];
      var bullet := BulletText(line);
      if bullet.Some? {
        examples := examples + [bullet.value];
      } else if examples == [] && Strip(line) != "" {
        parts := parts + [Strip(line)];
      }
      i := i + 1;
    }
    assert body[..|body|] == body;
    if examples == [] {
      return Err(NoExamples(name));
    }
    return Ok(Category(name, Join(" ", parts), examples));
  }

  /** Names of sections converted so far, lower-cased. */
  ghost function LowerNames(blocks: seq<Block>): set<string> {
    set b | b in blocks :: Lower(b.name)
  }

  /**
    `parse_categories`: it succeeds exactly on acceptable files and then returns the real sections
    in file order, each with its description and examples.
  */
  method ParseCategories(markdown: string) returns (r: Result<CategorySet, Error>)
    ensures r.Ok? <==> Acceptable(SplitLines(markdown))
    ensures r.Ok? ==> r.value.categories == Converted(Real(Sections(SplitLines(markdown))))
    ensures r.Err? && r.error.Malformed? <==> !NoMalformedLine(SplitLines(markdown))
    ensures r.Err? && r.error.Malformed? ==> FirstMalformed(SplitLines(markdown), r.error.line)
    ensures r.Ok? ==> CaseIsIgnored(SplitLines(markdown), r.value.categories)
    ensures r == Err(NoCategories) <==>
              NoMalformedLine(SplitLines(markdown)) && Real(Sections(SplitLines(markdown))) == []
    ensures r.Err? && !r.error.Malformed? && !r.error.NoCategories? ==>
              exists k: nat :: FirstFault(Real(Sections(SplitLines(markdown))), k, r.error)
  {
    hide FirstFault, FirstMalformed, CaseIsIgnored, CategoryOf, Bullets, Real, Sections, SplitLines, Lower, Accepted;
    var lines := SplitLines(markdown);
    var split := SplitIntoBlocks(lines);
    if split.Err? {
      return Err(split.error);
    }
    var blocks := split.value;
    NothingAccepted(blocks);
    var categories: seq<Category> := [];
    var seen: set<string> := {};
    var i := 0;
    while i < |blocks|
      invariant i <= |blocks|
      invariant Accepted(Real(blocks[..i]), categories, seen)
    {
      var name, body := blocks[i].name, blocks[i].body;
      assert blocks[i] == Block(name, body);
      RealStep(blocks, i);
      RealPrefix(blocks, i + 1);
      AcceptedMeans(Real(blocks[..i]), categories, seen);
      ghost var known := seen;
      var lowered := Lower(name);
      if lowered != UNKNOWN {
        if lowered in seen {
          Repeated(Real(blocks[..i]), categories, seen, blocks[i], Real(blocks));
          return Err(Duplicate(name));
        }
        seen := seen + {lowered};
        var category := BuildCategory(name, body);
        if category.Err? {
          Exampleless(Real(blocks[..i]), categories, known, blocks[i], Real(blocks));
          return Err(category.error);
        }
        AcceptOne(Real(blocks[..i]), categories, known, blocks[i]);
        categories := categories + [category.value];
      }
      i := i + 1;
    }
    assert blocks[..|blocks|] == blocks;
    AcceptedMeans(Real(blocks), categories, seen);
    if categories == [] {
      return Err(NoCategories);
    }
    AcceptedIgnoresCase(lines);
    return Ok(CategorySet(categories));
  }

  /** The loop state after accepting these real sections. */
  ghost predicate Accepted(blocks: seq<Block>, categories: seq<Category>, seen: set<string>) {
    && categories == Converted(blocks) && seen == LowerNames(blocks)
    && DistinctNames(blocks) && AllHaveExamples(blocks)
  }

  lemma AcceptedMeans(blocks: seq<Block>, categories: seq<Category>, seen: set<string>)
    requires Accepted(blocks, categories, seen)
    ensures categories == Converted(blocks) && seen == LowerNames(blocks) && |categories| == |blocks|
    ensures DistinctNames(blocks) && AllHaveExamples(blocks)
  {
  }

  lemma NothingAccepted(blocks: seq<Block>)
    ensures Real(blocks[..0]) == [] && Accepted(Real(blocks[..0]), [], {})
  {
  }

  lemma AcceptOne(blocks: seq<Block>, categories: seq<Category>, seen: set<string>, b: Block)
    requires Accepted(blocks, categories, seen) && Lower(b.name) !in seen && Bullets(b.body) != []
    ensures Accepted(blocks + [b], categories + [CategoryOf(b)], seen + {Lower(b.name)})
  {
    forall i | 0 <= i < |blocks|
      ensures Lower(blocks[i].name) in seen
    {
      assert blocks[i] in blocks;
    }
    assert forall x :: x in blocks + [b] <==> x in blocks || x == b;
  }

  lemma Repeated(front: seq<Block>, categories: seq<Category>, seen: set<string>, b: Block, all: seq<Block>)
    requires Accepted(front, categories, seen) && front + [b] <= all && Lower(b.name) in seen
    ensures !DistinctNames(all) && FirstFault(all, |front|, Duplicate(b.name))
  {
    var x :| x in front && Lower(x.name) == Lower(b.name);
    var i :| 0 <= i < |front| && front[i] == x;
    assert all[i] == x && all[|front|] == b && all[..|front|] == front;
  }

  lemma Exampleless(front: seq<Block>, categories: seq<Category>, seen: set<string>, b: Block, all: seq<Block>)
    requires Accepted(front, categories, seen) && front + [b] <= all
    requires Lower(b.name) !in seen && Bullets(b.body) == []
    ensures !AllHaveExamples(all) && FirstFault(all, |front|, NoExamples(b.name))
  {
    hide Lower, Bullets;
    assert all[|front|] == b && all[..|front|] == front;
    forall i | 0 <= i < |front|
      ensures Lower(all[i].name) != Lower(b.name)
    {
      assert all[i] == front[i] && front[i] in front;
    }
  }

  lemma RealStep(blocks: seq<Block>, i: nat)
    requires i < |blocks|
    ensures Real(blocks[..i + 1]) == if IsReal(blocks[i]) then Real(blocks[..i]) + [blocks[i]] else Real(blocks[..i])
  {
    assert blocks[..i + 1][..i] == blocks[..i];
  }

  /** The real sections of the first i blocks are the first real sections. */
  lemma {:induction false} RealPrefix(blocks: seq<Block>, i: nat)
    requires i <= |blocks|
    ensures Real(blocks[..i]) <= Real(blocks)
    decreases |blocks| - i
  {
    if i == |blocks| {
      assert blocks[..i] == blocks;
    } else {
      RealStep(blocks, i);
      RealPrefix(blocks, i + 1);
    }
  }

  // ---- letter case ----

  predicate SameHeading(line: string, other: string) {
    && HeadingName(line).Some? && HeadingName(other).Some?
    && SameName(HeadingName(line).value, HeadingName(other).value)
  }

  predicate IsUnknown(line: string) {
    HeadingName(line).Some? && SameName(HeadingName(line).value, UNKNOWN)
  }

  /**
    No two headings differ in letter case only; all but the spellings of `unknown` become categories,
    and only they.
  */
  ghost predicate CaseIsIgnored(lines: seq<string>, categories: seq<Category>) {
    && (forall i, j :: 0 <= i < j < |lines| && SameHeading(lines[i], lines[j]) ==> IsUnknown(lines[i]))
    && (forall i :: 0 <= i < |lines| && HeadingName(lines[i]).Some? && !IsUnknown(lines[i]) ==>
          exists k :: 0 <= k < |categories| && categories[k].name == HeadingName(lines[i]).value)
    && (forall k :: 0 <= k < |categories| ==> !SameName(categories[k].name, UNKNOWN))
    && (forall k, l :: 0 <= k < l < |categories| ==> !SameName(categories[k].name, categories[l].name))
  }

  lemma RealExactly(b: Block)
    ensures IsReal(b) <==> !SameName(b.name, UNKNOWN)
  {
    LowerExactly(b.name, UNKNOWN);
    UnknownIsLower();
  }

  lemma UnknownIsLower()
    ensures Lower(UNKNOWN) == UNKNOWN
  {
  }

  /** A heading opens the block that counts as many blocks before it as its line says. */
  lemma {:induction false} BlockOfHeading(lines: seq<string>, i: nat)
    requires i < |lines| && HeadingName(lines[i]).Some?
    ensures |Sections(lines[..i])| < |Sections(lines)|
    ensures Sections(lines)[|Sections(lines[..i])|].name == HeadingName(lines[i]).value
  {
    hide HeadingName, MalformedHeading;
    var n := |lines| - 1;
    if i < n {
      BlockOfHeading(lines[..n], i);
      assert lines[..n][..i] == lines[..i] && lines[..n][i] == lines[i];
    }
  }

  lemma HeadingsInOrder(lines: seq<string>, i: nat, j: nat)
    requires i < j < |lines| && HeadingName(lines[i]).Some?
    ensures |Sections(lines[..i])| < |Sections(lines[..j])|
  {
    BlockOfHeading(lines[..j], i);
    assert lines[..j][..i] == lines[..i];
  }

  /** A real block is among the real ones, behind the real ones before it. */
  lemma RealIndex(blocks: seq<Block>, a: nat)
    requires a < |blocks| && IsReal(blocks[a])
    ensures |Real(blocks[..a])| < |Real(blocks)| && Real(blocks)[|Real(blocks[..a])|] == blocks[a]
  {
    hide IsReal;
    RealStep(blocks, a);
    RealPrefix(blocks, a + 1);
  }

  lemma RealInOrder(blocks: seq<Block>, a: nat, b: nat)
    requires a < b < |blocks| && IsReal(blocks[a])
    ensures |Real(blocks[..a])| < |Real(blocks[..b])|
  {
    RealIndex(blocks[..b], a);
    assert blocks[..b][..a] == blocks[..a];
  }

  /** Two headings with one name up to letter case, other than `unknown`, are two real sections with one name. */
  lemma RepeatedHeadings(lines: seq<string>, i: nat, j: nat)
    requires i < j < |lines| && HeadingName(lines[i]).Some? && HeadingName(lines[j]).Some?
    requires SameName(HeadingName(lines[i]).value, HeadingName(lines[j]).value)
    requires !SameName(HeadingName(lines[i]).value, UNKNOWN)
    ensures !DistinctNames(Real(Sections(lines)))
  {
    hide HeadingName, Sections, Real, IsReal, Lower, SameName;
    var blocks := Sections(lines);
    BlockOfHeading(lines, i);
    BlockOfHeading(lines, j);
    HeadingsInOrder(lines, i, j);
    var a, b := |Sections(lines[..i])|, |Sections(lines[..j])|;
    RealExactly(blocks[a]);
    RealExactly(blocks[b]);
    LowerExactly(blocks[a].name, blocks[b].name);
    LowerExactly(blocks[a].name, UNKNOWN);
    LowerExactly(blocks[b].name, UNKNOWN);
    RealIndex(blocks, a);
    RealIndex(blocks, b);
    RealInOrder(blocks, a, b);
    assert Lower(Real(blocks)[|Real(blocks[..a])|].name) == Lower(Real(blocks)[|Real(blocks[..b])|].name);
  }

  /** A file that is accepted has no headings that differ in letter case only. */
  lemma AcceptedIgnoresCase(lines: seq<string>)
    requires Acceptable(lines)
    ensures CaseIsIgnored(lines, Converted(Real(Sections(lines))))
  {
    hide HeadingName, MalformedHeading, Sections, Real, SameName, Lower, IsReal, Bullets, CategoryOf;
    var kept := Real(Sections(lines));
    forall i, j | 0 <= i < j < |lines| && SameHeading(lines[i], lines[j])
      ensures IsUnknown(lines[i])
    {
      if !IsUnknown(lines[i]) {
        RepeatedHeadings(lines, i, j);
      }
    }
    forall i | 0 <= i < |lines| && HeadingName(lines[i]).Some? && !IsUnknown(lines[i])
      ensures exists k :: 0 <= k < |Converted(kept)| && Converted(kept)[k].name == HeadingName(lines[i]).value
    {
      HeadingBecomesCategory(lines, i);
    }
    forall k | 0 <= k < |kept|
      ensures Converted(kept)[k].name == kept[k].name && !SameName(kept[k].name, UNKNOWN)
    {
      ConvertedName(kept, k);
      RealAreReal(Sections(lines));
      RealExactly(kept[k]);
    }
    forall k, l | 0 <= k < l < |kept|
      ensures !SameName(kept[k].name, kept[l].name)
    {
      LowerExactly(kept[k].name, kept[l].name);
    }
  }

  lemma HeadingBecomesCategory(lines: seq<string>, i: nat)
    requires i < |lines| && HeadingName(lines[i]).Some? && !SameName(HeadingName(lines[i]).value, UNKNOWN)
    ensures var cs := Converted(Real(Sections(lines)));
      exists k :: 0 <= k < |cs| && cs[k].name == HeadingName(lines[i]).value
  {
    hide HeadingName, Sections, Real, SameName, IsReal;
    var blocks := Sections(lines);
    BlockOfHeading(lines, i);
    var a := |Sections(lines[..i])|;
    RealExactly(blocks[a]);
    RealIndex(blocks, a);
    ConvertedName(Real(blocks), |Real(blocks[..a])|);
  }

  lemma ConvertedName(blocks: seq<Block>, k: nat)
    requires k < |blocks|
    ensures Converted(blocks)[k].name == blocks[k].name
  {
  }

  lemma {:induction false} RealAreReal(blocks: seq<Block>)
    ensures forall i :: 0 <= i < |Real(blocks)| ==> IsReal(Real(blocks)[i])
  {
    if blocks != [] {
      RealAreReal(blocks[..|blocks| - 1]);
    }
  }
}
