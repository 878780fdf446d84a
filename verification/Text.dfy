/** Line-level text functions and the three line patterns of the category file. */
module Text {
  import opened Base

  predicate IsSpace(c: char) {
    c == ' ' || c == '\t'
  }

  predicate SpaceIn(s: string, lo: nat, hi: nat)
    requires hi <= |s|
  {
    forall i :: lo <= i < hi ==> IsSpace(s[i])
  }

  function LTrim(s: string): (t: string)
    ensures |t| <= |s| && t == s[|s| - |t|..] && SpaceIn(s, 0, |s| - |t|)
    ensures t != "" ==> !IsSpace(t[0])
  {
    if s != "" && IsSpace(s[0]) then LTrim(s[1..]) else s
  }

  function RTrim(s: string): (t: string)
    ensures |t| <= |s| && t == s[..|t|] && SpaceIn(s, |t|, |s|)
    ensures t != "" ==> !IsSpace(t[|t| - 1])
  {
    if s != "" && IsSpace(s[|s| - 1]) then RTrim(s[..|s| - 1]) else s
  }

  function Strip(s: string): string {
    RTrim(LTrim(s))
  }

  /** Stripping takes the white space off both ends and nothing else. */
  lemma StripExactly(s: string) returns (lo: nat, hi: nat)
    ensures lo <= hi <= |s| && Strip(s) == s[lo..hi] && SpaceIn(s, 0, lo) && SpaceIn(s, hi, |s|)
    ensures lo < hi ==> !IsSpace(s[lo]) && !IsSpace(s[hi - 1])
  {
    hide LTrim, RTrim;
    var t := LTrim(s);
    lo := |s| - |t|;
    hi := lo + |RTrim(t)|;
    assert forall k :: lo <= k < |s| ==> s[k] == t[k - lo];
    if RTrim(t) != "" {
      assert RTrim(t)[|RTrim(t)| - 1] == t[|RTrim(t)| - 1];
    }
  }

  function LowerChar(c: char): char {
    if 'A' <= c <= 'Z' then c - 'A' + 'a' else c
  }

  function Lower(s: string): string {
    seq(|s|, i requires 0 <= i < |s| => LowerChar(s[i]))
  }

  /** The same character, or the upper and lower case of one letter. */
  predicate SameLetter(x: char, y: char) {
    || x == y
    || ('A' <= x <= 'Z' && y as int == x as int + 32)
    || ('A' <= y <= 'Z' && x as int == y as int + 32)
  }

  /** Equal up to the case of letters. */
  predicate SameName(a: string, b: string) {
    |a| == |b| && forall i :: 0 <= i < |a| ==> SameLetter(a[i], b[i])
  }

  lemma LowerExactly(a: string, b: string)
    ensures Lower(a) == Lower(b) <==> SameName(a, b)
  {
    if Lower(a) == Lower(b) {
      forall i | 0 <= i < |a|
        ensures SameLetter(a[i], b[i])
      {
        assert Lower(a)[i] == Lower(b)[i];
      }
    }
  }

  lemma LowerOfLower(s: string)
    ensures Lower(Lower(s)) == Lower(s)
  {
  }

  function Join(separator: string, parts: seq<string>): string {
    if parts == [] then ""
    else if |parts| == 1 then parts[0]
    else parts[0] + separator + Join(separator, parts[1..])
  }

  // ---- the tail shared by headings and bullets: \s+(.+?)\s*$ ----

  /** The group of `\s+(.+?)\s*$` matched at the start of s. */
  function Payload(s: string): Option<string> {
    var t := LTrim(s);
    if |t| == |s| then None
    else if t != "" then Some(RTrim(t))
    else if |s| >= 2 then Some(s[|s| - 1..])
    else None
  }

  /** s splits into white space, a non-empty group s[i..j], and white space. */
  predicate Splits(s: string, i: nat, j: nat) {
    1 <= i < j <= |s| && SpaceIn(s, 0, i) && SpaceIn(s, j, |s|)
  }

  /** The split a backtracking matcher finds: the first space run is greedy, then the group is lazy. */
  ghost predicate IsTheMatch(s: string, i: nat, j: nat) {
    && Splits(s, i, j)
    && (forall i': nat, j': nat :: Splits(s, i', j') ==> i' <= i)
    && (forall j': nat :: Splits(s, i, j') ==> j <= j')
  }

  ghost predicate NoMatch(s: string) {
    forall i: nat, j: nat :: !Splits(s, i, j)
  }

  ghost predicate IsTheGroup(s: string, g: string) {
    exists i: nat, j: nat :: IsTheMatch(s, i, j) && g == s[i..j]
  }

  lemma PayloadIsTheMatch(s: string)
    ensures Payload(s).None? ==> NoMatch(s)
    ensures Payload(s).Some? ==> IsTheGroup(s, Payload(s).value)
  {
    hide IsTheGroup, NoMatch, RTrim, LTrim;
    if LTrim(s) != "" {
      hide SpaceIn, IsSpace;
      TextPayload(s);
    } else {
      BlankMatch(s);
    }
  }

  lemma TextPayload(s: string)
    requires LTrim(s) != ""
    ensures |LTrim(s)| == |s| ==> NoMatch(s)
    ensures |LTrim(s)| < |s| ==> IsTheGroup(s, RTrim(LTrim(s)))
  {
    hide LTrim, RTrim, Splits, SpaceIn, IsSpace, NoMatch, IsTheMatch;
    TrimmedEnds(s);
    var n := |s| - |LTrim(s)|;
    MatchAt(s, n, n + |RTrim(LTrim(s))|);
  }

  /** Where the trimmed text starts and ends inside s. */
  lemma TrimmedEnds(s: string)
    requires LTrim(s) != ""
    ensures var n, g := |s| - |LTrim(s)|, RTrim(LTrim(s));
      && g != "" && n + |g| <= |s| && g == s[n..n + |g|]
      && SpaceIn(s, 0, n) && !IsSpace(s[n]) && !IsSpace(s[n + |g| - 1]) && SpaceIn(s, n + |g|, |s|)
  {
    hide LTrim, RTrim;
    var t := LTrim(s);
    var n, g := |s| - |t|, RTrim(t);
    assert t[0] == s[n];
    assert g != "" by {
      assert SpaceIn(t, |g|, |t|);
    }
    assert g[|g| - 1] == t[|g| - 1] == s[n + |g| - 1];
    assert forall k :: n + |g| <= k < |s| ==> s[k] == t[k - n];
  }

  lemma MatchAt(s: string, n: nat, e: nat)
    requires n < e <= |s| && SpaceIn(s, 0, n) && !IsSpace(s[n]) && !IsSpace(s[e - 1]) && SpaceIn(s, e, |s|)
    ensures n == 0 ==> NoMatch(s)
    ensures n > 0 ==> IsTheMatch(s, n, e)
  {
  }

  lemma BlankMatch(s: string)
    requires SpaceIn(s, 0, |s|)
    ensures |s| < 2 ==> NoMatch(s)
    ensures |s| >= 2 ==> IsTheGroup(s, s[|s| - 1..])
  {
    if |s| >= 2 {
      assert IsTheMatch(s, |s| - 1, |s|);
      assert s[|s| - 1..] == s[|s| - 1..|s|];
    }
  }

  /** A clean string: non-empty, on one line, without surrounding white space. */
  predicate Clean(s: string) {
    s != "" && !IsSpace(s[0]) && !IsSpace(s[|s| - 1]) && '\n' !in s
  }

  lemma CleanPayload(s: string)
    requires Clean(s)
    ensures LTrim(s) == s && RTrim(s) == s && Strip(s) == s
    ensures Payload(" " + s) == Some(s)
  {
    var padded := " " + s;
    assert padded[0] == ' ' && padded[1..] == s;
    assert LTrim(padded) == LTrim(s) == s;
  }

  // ---- lines ----

  function NewlineAt(s: string): (n: nat)
    ensures n <= |s| && (n < |s| ==> s[n] == '\n')
    ensures forall i :: 0 <= i < n ==> s[i] != '\n'
  {
    if s == "" || s[0] == '\n' then 0 else 1 + NewlineAt(s[1..])
  }

  /** `str.splitlines` for texts whose only line separator is the newline. */
  function SplitLines(s: string): seq<string>
    decreases |s|
  {
    if s == "" then []
    else
      var n := NewlineAt(s);
      [s[..n]] + (if n == |s| then [] else SplitLines(s[n + 1..]))
  }

  function Unlines(lines: seq<string>): string {
    if lines == [] then "" else lines[0] + "\n" + Unlines(lines[1..])
  }

  lemma SplitCons(line: string, text: string)
    requires '\n' !in line
    ensures SplitLines(line + "\n" + text) == [line] + SplitLines(text)
  {
    var s, k := line + "\n" + text, |line|;
    assert s[..k] == line && s[k] == '\n' && s[k + 1..] == text;
    assert forall i :: 0 <= i < k ==> s[i] == line[i];
    assert NewlineAt(s) == k;
  }

  lemma {:induction false} SplitUnlines(lines: seq<string>)
    requires forall i :: 0 <= i < |lines| ==> '\n' !in lines[i]
    ensures SplitLines(Unlines(lines)) == lines
  {
    hide SplitLines;
    if lines == [] {
      NoLines();
    } else {
      SplitUnlines(lines[1..]);
      SplitCons(lines[0], Unlines(lines[1..]));
    }
  }

  lemma NoLines()
    ensures SplitLines("") == []
  {
  }

  predicate OneLine(line: string) {
    '\n' !in line
  }

  lemma {:induction false} LinesAreLines(s: string)
    ensures forall i :: 0 <= i < |SplitLines(s)| ==> OneLine(SplitLines(s)[i])
    decreases |s|
  {
    if s != "" {
      var n := NewlineAt(s);
      assert OneLine(s[..n]);
      if n < |s| {
        LinesAreLines(s[n + 1..]);
      }
    }
  }

  function Terminated(s: string): string {
    if s == "" || s[|s| - 1] == '\n' then s else s + "\n"
  }

  /** Every character of the text is in one of its lines or ends one; the last line may be unterminated. */
  lemma {:induction false} SplitLinesExactly(s: string)
    ensures Unlines(SplitLines(s)) == Terminated(s)
    decreases |s|
  {
    if s != "" {
      var n := NewlineAt(s);
      if n == |s| {
        UnlinesCons(s[..n], []);
        assert s[..n] == s;
      } else {
        SplitLinesExactly(s[n + 1..]);
        UnlinesCons(s[..n], SplitLines(s[n + 1..]));
        TerminatedTail(s, n);
      }
    }
  }

  lemma UnlinesCons(line: string, rest: seq<string>)
    ensures Unlines([line] + rest) == line + "\n" + Unlines(rest)
  {
    assert ([line] + rest)[1..] == rest;
  }

  lemma TerminatedTail(s: string, n: nat)
    requires n < |s| && s[n] == '\n'
    ensures Terminated(s) == s[..n] + "\n" + Terminated(s[n + 1..])
  {
    assert s == s[..n] + "\n" + s[n + 1..];
    if n + 1 < |s| {
      assert s[n + 1..][|s[n + 1..]| - 1] == s[|s| - 1];
    }
  }

  // ---- the three patterns ----

  /** `^##\s+(.+?)\s*$` */
  function HeadingName(line: string): Option<string> {
    if |line| >= 2 && line[..2] == "##" then Payload(line[2..]) else None
  }

  /** `^#{2,6}\S`; the repetition may give characters back, so "### x" matches as well. */
  predicate MalformedHeading(line: string) {
    exists k :: 2 <= k <= 6 && k < |line| && (forall i :: 0 <= i < k ==> line[i] == '#') && !IsSpace(line[k])
  }

  /** `^\s*[-*+]\s+(.+?)\s*$` */
  function BulletText(line: string): Option<string> {
    var t := LTrim(line);
    if t != "" && (t[0] == '-' || t[0] == '*' || t[0] == '+') then Payload(t[1..]) else None
  }

  /** `^##\s+(.+?)\s*$`: two hashes, then the group. */
  lemma HeadingExactly(line: string)
    ensures HeadingName(line).Some? ==> line[..2] == "##" && IsTheGroup(line[2..], HeadingName(line).value)
    ensures HeadingName(line).None? ==> |line| < 2 || line[0] != '#' || line[1] != '#' || NoMatch(line[2..])
  {
    hide IsTheGroup, NoMatch;
    if |line| >= 2 {
      PayloadIsTheMatch(line[2..]);
      assert line[0] == line[..2][0] && line[1] == line[..2][1];
      assert line[0] == '#' && line[1] == '#' ==> line[..2] == "##";
    }
  }

  /** A bullet sign after white space only. */
  predicate SignAt(line: string, i: nat) {
    i < |line| && SpaceIn(line, 0, i) && (line[i] == '-' || line[i] == '*' || line[i] == '+')
  }

  /** `^\s*[-*+]\s+(.+?)\s*$`: white space, one of the three signs, then the group. */
  lemma BulletExactly(line: string)
    ensures BulletText(line).Some? ==>
              exists i: nat :: SignAt(line, i) && IsTheGroup(line[i + 1..], BulletText(line).value)
    ensures BulletText(line).None? ==> forall i: nat :: SignAt(line, i) ==> NoMatch(line[i + 1..])
  {
    hide IsTheGroup, NoMatch, LTrim, Payload;
    var t := LTrim(line);
    var n := |line| - |t|;
    if t == "" {
      assert forall i: nat :: !SignAt(line, i);
    } else {
      assert t[0] == line[n];
      assert forall i: nat :: SignAt(line, i) ==> i == n;
      assert t[1..] == line[n + 1..];
      PayloadIsTheMatch(t[1..]);
      assert BulletText(line).Some? ==> SignAt(line, n) && IsTheGroup(line[n + 1..], BulletText(line).value);
    }
  }

  /** Malformed is what starts with two hashes and goes on with anything but white space. */
  lemma MalformedExactly(line: string)
    ensures MalformedHeading(line) <==> |line| >= 3 && line[..2] == "##" && !IsSpace(line[2])
    ensures MalformedHeading(line) ==> HeadingName(line).None?
  {
    if MalformedHeading(line) {
      var k :| 2 <= k <= 6 && k < |line| && (forall i :: 0 <= i < k ==> line[i] == '#') && !IsSpace(line[k]);
      assert k > 2 ==> line[2] == '#';
      assert line[2..][0] == line[2];
    }
    if |line| >= 3 && line[..2] == "##" && !IsSpace(line[2]) {
      assert line[0] == line[..2][0] && line[1] == line[..2][1];
    }
  }
}
