/** POSIX path strings: segments, normal forms, and resolution without symbolic links. */
module Paths {
  import opened Text

  type Parts = seq<string>

  function Segments(s: string): (r: Parts)
    ensures r != [] && forall i :: 0 <= i < |r| ==> '/' !in r[i]
  {
    if s == "" then [""]
    else
      var r := Segments(s[1..]);
      if s[0] == '/' then [""] + r else [[s[0]] + r[0]] + r[1..]
  }

  function Slashed(parts: Parts): string {
    Join("/", parts)
  }

  /** A segment that survives parsing: neither empty nor the current directory. */
  predicate Real(segment: string) {
    segment != "" && segment != "."
  }

  predicate AllReal(parts: Parts) {
    forall i :: 0 <= i < |parts| ==> Real(parts[i]) && '/' !in parts[i]
  }

  function Kept(segments: Parts): (r: Parts)
    ensures (forall i :: 0 <= i < |segments| ==> '/' !in segments[i]) ==> AllReal(r)
  {
    if segments == [] then []
    else (if Real(segments[0]) then [segments[0]] else []) + Kept(segments[1..])
  }

  /** The components of a path; only `..` is left for resolution. */
  function Components(s: string): Parts {
    Kept(Segments(s))
  }

  predicate Absolute(s: string) {
    s != "" && s[0] == '/'
  }

  // ---- segments and their joins are inverse ----

  lemma {:induction false} SlashedSegments(s: string)
    ensures Slashed(Segments(s)) == s
  {
    if s != "" {
      SlashedSegments(s[1..]);
      var r := Segments(s[1..]);
      if s[0] == '/' {
        assert ([""] + r)[1..] == r;
      } else {
        var q := [[s[0]] + r[0]] + r[1..];
        assert q[1..] == r[1..];
        assert Slashed(q) == [s[0]] + Slashed(r);
      }
      assert s == [s[0]] + s[1..];
    }
  }

  lemma {:induction false} SegmentsOfOne(a: string)
    requires '/' !in a
    ensures Segments(a) == [a]
  {
    if a != "" {
      SegmentsOfOne(a[1..]);
      assert a == [a[0]] + a[1..];
    }
  }

  lemma {:induction false} SegmentsOfTwo(a: string, rest: string)
    requires '/' !in a
    ensures Segments(a + "/" + rest) == [a] + Segments(rest)
  {
    var s := a + "/" + rest;
    if a == "" {
      assert s[1..] == rest;
    } else {
      SegmentsOfTwo(a[1..], rest);
      assert s[1..] == a[1..] + "/" + rest;
      assert a == [a[0]] + a[1..];
    }
  }

  lemma {:induction false} SegmentsSlashed(parts: Parts)
    requires parts != [] && forall i :: 0 <= i < |parts| ==> '/' !in parts[i]
    ensures Segments(Slashed(parts)) == parts
  {
    if |parts| == 1 {
      SegmentsOfOne(parts[0]);
    } else {
      SegmentsSlashed(parts[1..]);
      SegmentsOfTwo(parts[0], Slashed(parts[1..]));
    }
  }

  lemma {:induction false} SlashedSnoc(parts: Parts, last: string)
    requires parts != []
    ensures Slashed(parts + [last]) == Slashed(parts) + "/" + last
  {
    assert (parts + [last])[1..] == parts[1..] + [last];
    if |parts| == 1 {
      assert Slashed([last]) == last;
    } else {
      SlashedSnoc(parts[1..], last);
    }
  }

  lemma {:induction false} KeptAll(parts: Parts)
    requires AllReal(parts)
    ensures Kept(parts) == parts
  {
    if parts != [] {
      KeptAll(parts[1..]);
    }
  }

  lemma ComponentsSlashed(parts: Parts)
    requires AllReal(parts)
    ensures Components(Slashed(parts)) == parts
  {
    if parts == [] {
      assert Segments("") == [""] && [""][1..] == [];
    } else {
      SegmentsSlashed(parts);
      KeptAll(parts);
    }
  }

  /** Parsing and printing give a string back exactly when parsing drops no segment of it. */
  lemma PrintedBack(s: string)
    ensures Slashed(Components(s)) == s <==> s == "" || AllReal(Segments(s))
  {
    var cs := Components(s);
    if Slashed(cs) == s && s != "" {
      SegmentsSlashed(cs);
    }
    if AllReal(Segments(s)) {
      KeptAll(Segments(s));
      SlashedSegments(s);
    }
    if s == "" {
      ComponentsSlashed([]);
    }
  }

  lemma SegmentsOfRelative(parts: Parts)
    requires AllReal(parts) && parts != []
    ensures Slashed(parts) != "" && !Absolute(Slashed(parts)) && Slashed(parts) != "."
  {
    SegmentsSlashed(parts);
    SegmentsOfOne("");
    SegmentsOfOne(".");
    assert Slashed(parts)[0] == parts[0][0];
  }

  // ---- resolution ----

  /** Follow parts from a directory; at the file system's root `..` stays where it is. */
  function Follow(at: Parts, parts: Parts): Parts {
    if parts == [] then at
    else
      var here := Follow(at, parts[..|parts| - 1]);
      var last := parts[|parts| - 1];
      if last != ".." then here + [last] else if here == [] then [] else here[..|here| - 1]
  }

  lemma {:induction false} FollowConcat(at: Parts, parts: Parts, more: Parts)
    ensures Follow(at, parts + more) == Follow(Follow(at, parts), more)
  {
    if more == [] {
      assert parts + more == parts;
    } else {
      FollowConcat(at, parts, more[..|more| - 1]);
      assert (parts + more)[..|parts + more| - 1] == parts + more[..|more| - 1];
    }
  }

  /** The normal form of a relative path: some levels up, then a descent without `..`. */
  datatype Normal = Normal(up: nat, down: Parts)

  function Normalise(parts: Parts): Normal {
    if parts == [] then Normal(0, [])
    else
      var n := Normalise(parts[..|parts| - 1]);
      var last := parts[|parts| - 1];
      if last != ".." then Normal(n.up, n.down + [last])
      else if n.down == [] then Normal(n.up + 1, [])
      else Normal(n.up, n.down[..|n.down| - 1])
  }

  function Clamped(up: nat, at: Parts): nat {
    if up <= |at| then up else |at|
  }

  /** Resolution goes up as far as the normal form says, stopping at the file system's root, then down. */
  lemma {:induction false} FollowNormal(at: Parts, parts: Parts)
    ensures var n := Normalise(parts); Follow(at, parts) == at[..|at| - Clamped(n.up, at)] + n.down
  {
    if parts != [] {
      FollowNormal(at, parts[..|parts| - 1]);
    }
  }

  lemma {:induction false} NormalOfDescent(parts: Parts)
    requires ".." !in parts
    ensures Normalise(parts) == Normal(0, parts)
  {
    if parts != [] {
      NormalOfDescent(parts[..|parts| - 1]);
      assert parts[..|parts| - 1] + [parts[|parts| - 1]] == parts;
    }
  }

  // ---- `..` said without the normal form ----

  function Ups(k: nat): Parts {
    seq(k, _ => "..")
  }

  lemma {:induction false} NormalOfUps(k: nat)
    ensures Normalise(Ups(k)) == Normal(k, [])
  {
    if k > 0 {
      assert Ups(k)[..k - 1] == Ups(k - 1);
      NormalOfUps(k - 1);
    }
  }

  /** k levels up, then a descent: the normal form is just that. */
  lemma {:induction false} NormalOfClimb(k: nat, names: Parts)
    requires ".." !in names
    ensures Normalise(Ups(k) + names) == Normal(k, names)
  {
    if names == [] {
      NormalOfUps(k);
      assert Ups(k) + names == Ups(k);
    } else {
      var n := |names| - 1;
      NormalOfClimb(k, names[..n]);
      assert (Ups(k) + names)[..k + n] == Ups(k) + names[..n];
      assert names[..n] + [names[n]] == names;
    }
  }

  lemma DownAndUp(here: Parts, name: string)
    requires name != ".."
    ensures Follow(here, [name, ".."]) == here
  {
    var there := here + [name];
    assert [name, ".."][..1] == [name] && [name][..0] == [];
    assert Follow(here, []) == here;
    assert Follow(here, [name]) == there;
    assert there[..|there| - 1] == here;
  }

  /** Anywhere in a path, a name followed by `..` leads nowhere. */
  lemma ParentUndoes(at: Parts, before: Parts, name: string, after: Parts)
    requires name != ".."
    ensures Follow(at, before + [name, ".."] + after) == Follow(at, before + after)
  {
    FollowConcat(at, before + [name, ".."], after);
    FollowConcat(at, before, [name, ".."]);
    FollowConcat(at, before, after);
    DownAndUp(Follow(at, before), name);
  }
}
